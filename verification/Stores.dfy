/** The fixed roster of fully managed stores. */
module Stores {
  import opened Common
  import opened Text

  const STORE_CODES: set<string> := {
    "CX4412", "XL2801", "QY8886", "DX0571", "NM7397", "LQ7173", "TS8263", "DL5477", "FY4021", "GJ8989", "QH8028",
    "JY8060", "ZL3133", "MZ2406", "YJ8177", "RH0099", "WY9025", "RH2848", "CX2816", "YJ4042", "NM4977", "NM8787",
    "NM8831", "NM7418", "DX2420"
  }

  function Upper(c: char): char {
    if 'a' <= c <= 'z' then c - ' ' else c
  }

  function UpperText(s: string): string {
    seq(|s|, i requires 0 <= i < |s| => Upper(s[i]))
  }

  /** normalizeFullManagedStoreCode. */
  function Canonical(raw: string): Option<string> {
    var code := UpperText(Trim(raw));
    if code in STORE_CODES then Some(code) else None
  }

  lemma CodesArePlain(code: string)
    requires code in STORE_CODES
    ensures |code| == 6
    ensures forall i | 0 <= i < |code| :: 'A' <= code[i] <= 'Z' || '0' <= code[i] <= '9'
  {
  }

  /** A value names a store when, white space around it aside, it is the code with letters of either case. */
  lemma CanonicalIgnoresCase(raw: string, code: string)
    ensures Canonical(raw) == Some(code) <==>
            && code in STORE_CODES && |Trim(raw)| == |code|
            && forall i | 0 <= i < |code| ::
                 || Trim(raw)[i] == code[i]
                 || ('A' <= code[i] <= 'Z' && Trim(raw)[i] as int == code[i] as int + 32)
  {
    hide Trim;
    if code in STORE_CODES {
      CodesArePlain(code);
    }
    hide STORE_CODES;
    var text := Trim(raw);
    var upper := UpperText(text);
    if |text| == |code| {
      assert upper == code <==> forall i | 0 <= i < |code| :: upper[i] == code[i];
    }
  }

  /** A code names itself, and nothing else is its own canonical form. */
  lemma OnlyCodesAreCanonical(code: string)
    ensures Canonical(code) == Some(code) <==> code in STORE_CODES
  {
    if code in STORE_CODES {
      CodesArePlain(code);
      hide STORE_CODES;
      assert Trim(code) == code;
      assert UpperText(code) == code;
    }
  }
}
