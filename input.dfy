/**
 The framework's global input normalisation, which runs on every request before any
 validation: each string value is trimmed, and a string left empty is replaced by null.
 */
module Input {
  import opened Domain

  /** The characters trimming removes: ASCII whitespace (space, tab, line feed,
      vertical tab, form feed, carriage return) and the zero-width characters U+FEFF,
      U+200B and U+200E. */
  predicate IsBlank(c: char)
  {
    c == ' ' || c == '\t' || c == '\n' || c == '\U{000B}' || c == '\U{000C}' || c == '\r' ||
    c == '\U{FEFF}' || c == '\U{200B}' || c == '\U{200E}'
  }

  function TrimStart(s: string): string
  {
    if |s| > 0 && IsBlank(s[0]) then TrimStart(s[1..]) else s
  }

  function TrimEnd(s: string): string
  {
    if |s| > 0 && IsBlank(s[|s| - 1]) then TrimEnd(s[..|s| - 1]) else s
  }

  /** Leading and trailing blanks removed. */
  function Trim(s: string): string
  {
    TrimEnd(TrimStart(s))
  }

  /** A sent string field after trimming and the empty-string-to-null conversion. */
  function Normalize(f: Field<string>): Field<string>
  {
    match f
    case Absent => Absent
    case Null => Null
    case Present(s) => if Trim(s) == "" then Null else Present(Trim(s))
  }

  /** Trimming the start drops a run of blanks and stops at the first other character. */
  lemma {:induction false} TrimStartDrops(s: string)
    ensures |TrimStart(s)| <= |s|
    ensures TrimStart(s) == s[|s| - |TrimStart(s)|..]
    ensures forall k :: 0 <= k < |s| - |TrimStart(s)| ==> IsBlank(s[k])
    ensures |TrimStart(s)| > 0 ==> !IsBlank(TrimStart(s)[0])
  {
    if |s| > 0 && IsBlank(s[0]) {
      TrimStartDrops(s[1..]);
      var t := TrimStart(s[1..]);
      assert s[1..][|s| - 1 - |t|..] == s[|s| - |t|..];
      forall k | 0 <= k < |s| - |t| ensures IsBlank(s[k]) {
        if k > 0 {
          assert s[k] == s[1..][k - 1];
        }
      }
    }
  }

  /** Trimming the end drops a run of blanks and stops at the last other character. */
  lemma {:induction false} TrimEndDrops(s: string)
    ensures |TrimEnd(s)| <= |s|
    ensures TrimEnd(s) == s[..|TrimEnd(s)|]
    ensures forall k :: |TrimEnd(s)| <= k < |s| ==> IsBlank(s[k])
    ensures |TrimEnd(s)| > 0 ==> !IsBlank(TrimEnd(s)[|TrimEnd(s)| - 1])
  {
    if |s| > 0 && IsBlank(s[|s| - 1]) {
      var n := |s| - 1;
      TrimEndDrops(s[..n]);
      var t := TrimEnd(s[..n]);
      assert s[..n][..|t|] == s[..|t|];
      forall k | |t| <= k < |s| ensures IsBlank(s[k]) {
        if k < n {
          assert s[k] == s[..n][k];
        }
      }
    }
  }

  /** The trimmed string is the slice of `s` between its leading and trailing runs of
      blanks: everything cut away is blank, and a non-empty result starts and ends with
      a non-blank character. */
  lemma TrimShape(s: string)
    ensures var i := |s| - |TrimStart(s)|;
            var t := Trim(s);
            0 <= i && i + |t| <= |s| && t == s[i..i + |t|] &&
            (forall k :: 0 <= k < i ==> IsBlank(s[k])) &&
            (forall k :: i + |t| <= k < |s| ==> IsBlank(s[k])) &&
            (|t| > 0 ==> !IsBlank(t[0]) && !IsBlank(t[|t| - 1]))
  {
    var u := TrimStart(s);
    TrimStartDrops(s);
    TrimEndDrops(u);
    var i := |s| - |u|;
    var t := Trim(s);
    assert t == u[..|t|];
    assert u[..|t|] == s[i..i + |t|];
    forall k | i + |t| <= k < |s| ensures IsBlank(s[k]) {
      assert s[k] == u[k - i];
    }
    if |t| > 0 {
      assert t[0] == u[0];
    }
  }

  /** A string is trimmed to nothing exactly when all its characters are blank. */
  lemma AllBlankIffEmpty(s: string)
    ensures Trim(s) == "" <==> forall k :: 0 <= k < |s| ==> IsBlank(s[k])
  {
    TrimShape(s);
    TrimStartDrops(s);
  }

  /** Trimming twice is trimming once. */
  lemma TrimIdempotent(s: string)
    ensures Trim(Trim(s)) == Trim(s)
  {
    TrimShape(s);
  }

  /** Normalising twice is normalising once: a normalised field is never an empty or
      padded string, and the conversion only ever turns strings into null. */
  lemma NormalizeIdempotent(f: Field<string>)
    ensures Normalize(Normalize(f)) == Normalize(f)
    ensures Normalize(f).Present? ==> f.Present? && Normalize(f).value != "" && Trim(Normalize(f).value) == Normalize(f).value
    ensures Normalize(f).Absent? <==> f.Absent?
  {
    if f.Present? {
      TrimIdempotent(f.value);
    }
  }
}
