/**
 * The OBIS code registry (obis/registry.go): the thirteen codes the clients
 * report and their human-readable descriptions.
 */
module Obis {

  import opened Text
  import opened Smgw

  // Energy (kWh)
  const EnergyImport := "1.8.0"
  const EnergyExport := "2.8.0"

  // Power (W)
  const PowerActive := "16.7.0"
  const PowerL1 := "36.7.0"
  const PowerL2 := "56.7.0"
  const PowerL3 := "76.7.0"

  // Phase currents (A)
  const CurrentL1 := "31.7.0"
  const CurrentL2 := "51.7.0"
  const CurrentL3 := "71.7.0"

  // Phase voltages (V)
  const VoltageL1 := "32.7.0"
  const VoltageL2 := "52.7.0"
  const VoltageL3 := "72.7.0"

  // System (Hz)
  const Frequency := "14.7.0"

  const AllCodes: seq<string> := [
    EnergyImport, EnergyExport,
    PowerActive, PowerL1, PowerL2, PowerL3,
    CurrentL1, CurrentL2, CurrentL3,
    VoltageL1, VoltageL2, VoltageL3,
    Frequency
  ]

  const Descriptions: map<string, string> := map[
    EnergyImport := "Total imported energy (kWh)",
    EnergyExport := "Total exported energy (kWh)",
    PowerActive := "Current active power (W)",
    PowerL1 := "Phase 1 active power (W)",
    PowerL2 := "Phase 2 active power (W)",
    PowerL3 := "Phase 3 active power (W)",
    CurrentL1 := "Phase 1 current (A)",
    CurrentL2 := "Phase 2 current (A)",
    CurrentL3 := "Phase 3 current (A)",
    VoltageL1 := "Phase 1 voltage (V)",
    VoltageL2 := "Phase 2 voltage (V)",
    VoltageL3 := "Phase 3 voltage (V)",
    Frequency := "Grid frequency (Hz)"
  ]

  /** The table entry of a known code, "Unknown OBIS code: <code>" otherwise; never empty. */
  function Description(code: string): (d: string)
    ensures d != ""
  {
    if code in Descriptions then Descriptions[code] else "Unknown OBIS code: " + code
  }

  /** The table's keys are exactly the thirteen constants. */
  lemma DescriptionsCoverCodes()
    ensures Descriptions.Keys == set i | 0 <= i < |AllCodes| :: AllCodes[i]
    ensures forall code :: code in Descriptions <==> code in AllCodes
  {
    assert forall code :: code in Descriptions <==> code in AllCodes;
  }

  /** Each constant is a well-formed "C.D.E" code with exactly two dots. */
  lemma CodesAreValid()
    ensures forall i :: 0 <= i < |AllCodes| ==> CountChar(AllCodes[i], '.') == 2 && IsValidObis(AllCodes[i])
  {
    forall i | 0 <= i < |AllCodes|
      ensures CountChar(AllCodes[i], '.') == 2 && IsValidObis(AllCodes[i])
    {
      if i < 7 {
        CodeIsValidLow(i);
      } else {
        CodeIsValidHigh(i);
      }
    }
  }

  lemma CodeIsValidLow(i: nat)
    requires i < 7
    ensures CountChar(AllCodes[i], '.') == 2 && IsValidObis(AllCodes[i])
  {
    if i == 0 {
      ValidCode(AllCodes[i], "1", "8", "0");
    } else if i == 1 {
      ValidCode(AllCodes[i], "2", "8", "0");
    } else if i == 2 {
      ValidCode(AllCodes[i], "16", "7", "0");
    } else if i == 3 {
      ValidCode(AllCodes[i], "36", "7", "0");
    } else if i == 4 {
      ValidCode(AllCodes[i], "56", "7", "0");
    } else if i == 5 {
      ValidCode(AllCodes[i], "76", "7", "0");
    } else {
      ValidCode(AllCodes[i], "31", "7", "0");
    }
  }

  lemma CodeIsValidHigh(i: nat)
    requires 7 <= i < |AllCodes|
    ensures CountChar(AllCodes[i], '.') == 2 && IsValidObis(AllCodes[i])
  {
    if i == 7 {
      ValidCode(AllCodes[i], "51", "7", "0");
    } else if i == 8 {
      ValidCode(AllCodes[i], "71", "7", "0");
    } else if i == 9 {
      ValidCode(AllCodes[i], "32", "7", "0");
    } else if i == 10 {
      ValidCode(AllCodes[i], "52", "7", "0");
    } else if i == 11 {
      ValidCode(AllCodes[i], "72", "7", "0");
    } else {
      ValidCode(AllCodes[i], "14", "7", "0");
    }
  }

  lemma ValidCode(k: string, c: string, d: string, e: string)
    requires |c| >= 1 && |d| >= 1 && |e| >= 1
    requires AllDigits(c) && AllDigits(d) && AllDigits(e)
    requires k == c + "." + d + "." + e
    ensures CountChar(k, '.') == 2 && IsValidObis(k)
  {
    ObisTextValid(c, d, e);
  }

  /** The thirteen constants are pairwise distinct. */
  lemma CodesDistinct()
    ensures forall i, j :: 0 <= i < j < |AllCodes| ==> AllCodes[i] != AllCodes[j]
  {
  }

  /** A code outside the registry is described by the fallback text. */
  lemma DescriptionOfUnknown(code: string)
    requires code !in AllCodes
    ensures Description(code) == "Unknown OBIS code: " + code
  {
    DescriptionsCoverCodes();
  }

  /** The fallback text, e.g. for "99.99.99", is never a table description. */
  lemma UnknownExample()
    ensures Description("99.99.99") == "Unknown OBIS code: 99.99.99"
    ensures forall code :: code in Descriptions ==> Descriptions[code] != Description("99.99.99")
  {
    DescriptionOfUnknown("99.99.99");
  }
}
