/** Option names and option values as C strings: spellings with dashes and underscores, lists of values. */
module OptionNames {
  import opened CStrings

  function FoldChar(c: char): char {
    if c == '-' then '_' else c
  }

  /** The spelling under which a name is stored. */
  function Fold(s: string): (t: string)
    ensures |t| == |s| && forall i :: 0 <= i < |s| ==> t[i] == FoldChar(s[i])
  {
    seq(|s|, i requires 0 <= i < |s| => FoldChar(s[i]))
  }

  /** Names are the same up to dashes and underscores. */
  predicate SameName(s: string, t: string) {
    |s| == |t| && forall i :: 0 <= i < |s| ==> s[i] == t[i] || (s[i] in "-_" && t[i] in "-_")
  }

  lemma FoldExactly(s: string, t: string)
    ensures Fold(s) == Fold(t) <==> SameName(s, t)
    ensures '-' !in Fold(s) && SameName(s, Fold(s))
  {
    if SameName(s, t) {
      assert forall i :: 0 <= i < |s| ==> Fold(s)[i] == Fold(t)[i];
    }
    if Fold(s) == Fold(t) {
      assert forall i :: 0 <= i < |s| ==> FoldChar(s[i]) == Fold(s)[i] == FoldChar(t[i]);
    }
  }

  lemma FoldTwice(s: string)
    ensures Fold(Fold(s)) == Fold(s)
    ensures CString(s) ==> CString(Fold(s))
  {
  }

  /** convert_dashes on a buffer that holds a C string of length n. */
  method ConvertDashes(s: array<char>, ghost n: nat)
    requires n < s.Length && CString(s[..n]) && s[n] == '\0'
    modifies s
    ensures s[..n] == Fold(old(s[..n])) && s[n..] == old(s[n..])
    ensures '-' !in s[..n] && SameName(old(s[..n]), s[..n])
  {
    var i := 0;
    while s[i] != '\0'
      invariant 0 <= i <= n
      invariant forall k :: 0 <= k < i ==> s[k] == FoldChar(old(s[k]))
      invariant forall k :: i <= k < s.Length ==> s[k] == old(s[k])
      invariant s[n] == '\0' && forall k :: 0 <= k < n ==> old(s[k]) != '\0'
      decreases n - i
    {
      if s[i] == '-' {
        s[i] := '_';
      }
      i := i + 1;
    }
    FoldExactly(old(s[..n]), s[..n]);
  }

  /** Character i of a C string, with the NUL that ends it. */
  function At(s: string, i: nat): char
    requires i <= |s|
  {
    if i < |s| then s[i] else '\0'
  }

  /** opt_name_cmp gives 0 exactly for two spellings of the same name. */
  method OptNameCmp(s1: string, s2: string) returns (r: int)
    requires CString(s1) && CString(s2)
    ensures r == 0 <==> Fold(s1) == Fold(s2)
    ensures r == 0 <==> SameName(s1, s2)
  {
    var i := 0;
    while At(s1, i) != '\0'
      invariant 0 <= i <= |s1| && i <= |s2|
      invariant forall k :: 0 <= k < i ==> FoldChar(s1[k]) == FoldChar(s2[k])
      decreases |s1| - i
    {
      if At(s1, i) != At(s2, i) {
        if !(At(s1, i) == '-' || At(s1, i) == '_') || !(At(s2, i) == '-' || At(s2, i) == '_') {
          break;
        }
      }
      i := i + 1;
    }
    r := At(s1, i) as int - At(s2, i) as int;
    if r != 0 { Differ(s1, s2, i); }
    FoldExactly(s1, s2);
    hide SameName;
  }

  /** Names that differ, and not only in dashes and underscores, at some place. */
  lemma Differ(s1: string, s2: string, i: nat)
    requires CString(s1) && CString(s2) && i <= |s1| && i <= |s2|
    requires At(s1, i) != At(s2, i) && !(At(s1, i) in "-_" && At(s2, i) in "-_")
    ensures Fold(s1) != Fold(s2)
  {
    if |s1| == |s2| {
      assert Fold(s1)[i] != Fold(s2)[i];
    }
  }

  // ----- Lists of values -----

  /** The pieces between commas, empty ones included. */
  function Fields(s: string): (fields: seq<string>)
    ensures |fields| > 0
  {
    if s == "" then [""]
    else
      var fields, c := Fields(s[..|s| - 1]), s[|s| - 1];
      if c == ',' then fields + [""] else fields[..|fields| - 1] + [fields[|fields| - 1] + [c]]
  }

  function NonEmpty(fields: seq<string>): seq<string> {
    if fields == [] then []
    else NonEmpty(fields[..|fields| - 1]) + if fields[|fields| - 1] == "" then [] else [fields[|fields| - 1]]
  }

  /** The values of a list option: strtok passes over empty pieces. */
  function Tokens(s: string): seq<string> {
    NonEmpty(Fields(s))
  }

  lemma NonEmptyAppend(fields: seq<string>, f: string)
    ensures NonEmpty(fields + [f]) == NonEmpty(fields) + if f == "" then [] else [f]
  {
    assert (fields + [f])[..|fields|] == fields;
  }

  lemma TokensOfNothing()
    ensures Tokens("") == []
  {
    NonEmptyAppend([], "");
    assert [] + [""] == [""];
  }

  /** A comma ends a piece. */
  lemma TokensAfterComma(s: string)
    ensures Tokens(s + ",") == Tokens(s)
  {
    assert (s + ",")[..|s|] == s;
    NonEmptyAppend(Fields(s), "");
  }

  lemma {:induction false} FieldsOfPiece(s: string, t: string)
    requires ',' !in t
    ensures Fields(s + t) == Fields(s)[..|Fields(s)| - 1] + [Fields(s)[|Fields(s)| - 1] + t]
  {
    if t == "" {
      assert s + t == s;
      assert Fields(s)[|Fields(s)| - 1] + t == Fields(s)[|Fields(s)| - 1];
    } else {
      var u, c := t[..|t| - 1], t[|t| - 1];
      assert (s + t)[..|s + t| - 1] == s + u && (s + t)[|s + t| - 1] == c;
      FieldsOfPiece(s, u);
      assert t == u + [c];
      var last := Fields(s)[|Fields(s)| - 1];
      assert (last + u) + [c] == last + t;
    }
  }

  /** A piece that starts after a comma, or at the start, and is not empty, is a token. */
  lemma TokensOfPiece(s: string, t: string)
    requires ',' !in t && t != "" && (s == "" || s[|s| - 1] == ',')
    ensures Tokens(s + t) == Tokens(s) + [t]
  {
    FieldsOfPiece(s, t);
    var fields := Fields(s);
    var n := |fields| - 1;
    assert fields[n] == "" && fields == fields[..n] + [""];
    NonEmptyAppend(fields[..n], "");
    NonEmptyAppend(fields[..n], t);
    assert "" + t == t;
  }

  /** The loop over strtok. */
  method Split(s: string) returns (values: seq<string>)
    ensures values == Tokens(s)
  {
    hide Tokens;
    TokensOfNothing();
    values := [];
    var i := 0;
    assert s[..0] == "";
    while true
      invariant 0 <= i <= |s| && (i == 0 || s[i - 1] == ',' || i == |s|)
      invariant values == Tokens(s[..i])
      decreases |s| - i
    {
      i := SkipCommas(s, i);
      if i == |s| { break; }
      var start := i;
      i := TakePiece(s, start);
      values := values + [s[start..i]];
      if i < |s| {
        TokensAfterComma(s[..i]);
        assert s[..i + 1] == s[..i] + ",";
        i := i + 1;
      }
    }
    assert s[..i] == s;
  }

  /** The end of the piece that starts here. */
  method TakePiece(s: string, start: nat) returns (i: nat)
    requires start < |s| && s[start] != ',' && (start == 0 || s[start - 1] == ',')
    ensures start < i <= |s| && (i < |s| ==> s[i] == ',')
    ensures Tokens(s[..i]) == Tokens(s[..start]) + [s[start..i]]
  {
    hide Tokens;
    i := start + 1;
    while i < |s| && s[i] != ','
      invariant start < i <= |s| && ',' !in s[start..i]
    {
      i := i + 1;
    }
    assert s[..i] == s[..start] + s[start..i];
    TokensOfPiece(s[..start], s[start..i]);
  }

  method SkipCommas(s: string, from: nat) returns (i: nat)
    requires from <= |s|
    ensures from <= i <= |s| && (i < |s| ==> s[i] != ',') && (i > from ==> s[i - 1] == ',')
    ensures Tokens(s[..i]) == Tokens(s[..from])
  {
    hide Tokens;
    i := from;
    while i < |s| && s[i] == ','
      invariant from <= i <= |s| && (i > from ==> s[i - 1] == ',')
      invariant Tokens(s[..i]) == Tokens(s[..from])
    {
      TokensAfterComma(s[..i]);
      assert s[..i + 1] == s[..i] + ",";
      i := i + 1;
    }
  }

  function Listed(values: seq<string>): string {
    if values == [] then "" else Listed(values[..|values| - 1]) + values[|values| - 1] + ","
  }

  /** Values written one after the other, each with its comma, are read back. */
  lemma {:induction false} ListedTokens(values: seq<string>)
    requires forall v :: v in values ==> v != "" && ',' !in v
    ensures Tokens(Listed(values)) == values
  {
    hide Tokens;
    if values == [] {
      TokensOfNothing();
    } else {
      var n := |values| - 1;
      assert forall v :: v in values[..n] ==> v in values;
      ListedTokens(values[..n]);
      var before := Listed(values[..n]);
      assert values[n] in values;
      assert before == "" || before[|before| - 1] == ',';
      TokensOfPiece(before, values[n]);
      TokensAfterComma(before + values[n]);
      assert values == values[..n] + [values[n]];
    }
  }
}
