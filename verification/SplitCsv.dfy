/** The comma-separated list of the configuration. */
module SplitCsv {
  import opened Common

  /** unicode.IsSpace. */
  predicate IsSpace(c: char) {
    || c == '\t' || c == '\n' || c == '\r' || c == ' '
    || c == '\U{0B}' || c == '\U{0C}' || c == '\U{85}' || c == '\U{A0}'
    || c == '\U{1680}' || '\U{2000}' <= c <= '\U{200A}' || c == '\U{2028}' || c == '\U{2029}'
    || c == '\U{202F}' || c == '\U{205F}' || c == '\U{3000}'
  }

  predicate AllSpace(s: string) {
    forall k :: 0 <= k < |s| ==> IsSpace(s[k])
  }

  /** Neither end is a space. */
  predicate Trimmed(s: string) {
    s != "" ==> !IsSpace(s[0]) && !IsSpace(s[|s| - 1])
  }

  /** strings.TrimSpace. */
  function TrimSpace(s: string): (t: string)
    ensures Trimmed(t)
    ensures Trimmed(s) ==> t == s
    ensures t == "" <==> AllSpace(s)
  {
    if s == "" then s
    else if IsSpace(s[0]) then
      assert AllSpace(s[1..]) ==> AllSpace(s) by {
        assert forall k :: 0 < k < |s| ==> s[k] == s[1..][k - 1];
      }
      TrimSpace(s[1..])
    else if IsSpace(s[|s| - 1]) then
      assert !AllSpace(s[..|s| - 1]) by { assert s[..|s| - 1][0] == s[0]; }
      TrimSpace(s[..|s| - 1])
    else s
  }

  /** The string is kept between i and j, and only spaces are cut off. */
  predicate CutAt(s: string, t: string, i: nat, j: nat) {
    i <= j <= |s| && t == s[i..j] && AllSpace(s[..i]) && AllSpace(s[j..])
  }

  lemma OneMoreInFront(s: string, t: string, i: nat, j: nat)
    requires s != "" && IsSpace(s[0]) && CutAt(s[1..], t, i, j)
    ensures CutAt(s, t, i + 1, j + 1)
  {
    hide IsSpace;
    assert s[i + 1..j + 1] == s[1..][i..j] && s[j + 1..] == s[1..][j..];
    assert s[..i + 1] == [s[0]] + s[1..][..i];
  }

  lemma OneMoreBehind(s: string, t: string, i: nat, j: nat)
    requires s != "" && IsSpace(s[|s| - 1]) && CutAt(s[..|s| - 1], t, i, j)
    ensures CutAt(s, t, i, j)
  {
    hide IsSpace;
    var n := |s| - 1;
    assert s[i..j] == s[..n][i..j] && s[..i] == s[..n][..i];
    assert s[j..] == s[..n][j..] + [s[n]];
  }

  /** Trimming cuts off spaces at the two ends and nothing else. */
  lemma {:induction false} TrimCutsSpaces(s: string) returns (i: nat, j: nat)
    ensures i <= j <= |s| && TrimSpace(s) == s[i..j] && AllSpace(s[..i]) && AllSpace(s[j..])
  {
    hide IsSpace;
    if s != "" && IsSpace(s[0]) {
      i, j := TrimCutsSpaces(s[1..]);
      OneMoreInFront(s, TrimSpace(s), i, j);
      i, j := i + 1, j + 1;
    } else if s != "" && IsSpace(s[|s| - 1]) {
      i, j := TrimCutsSpaces(s[..|s| - 1]);
      OneMoreBehind(s, TrimSpace(s), i, j);
    } else {
      i, j := 0, |s|;
      assert s[0..|s|] == s;
    }
  }

  /** strings.Split at commas: never empty. */
  function Split(s: string): (parts: seq<string>)
    ensures parts != []
  {
    if s == "" then [""]
    else
      var rest := Split(s[1..]);
      if s[0] == ',' then [""] + rest else [[s[0]] + rest[0]] + rest[1..]
  }

  function Join(parts: seq<string>): string {
    if parts == [] then ""
    else if |parts| == 1 then parts[0]
    else parts[0] + "," + Join(parts[1..])
  }

  predicate CommaFree(s: string) {
    ',' !in s
  }

  predicate AllCommaFree(parts: seq<string>) {
    forall k :: 0 <= k < |parts| ==> CommaFree(parts[k])
  }

  /** The parts that are not blank, trimmed, in order. */
  function Kept(parts: seq<string>): seq<string> {
    if parts == [] then []
    else
      Kept(parts[..|parts| - 1])
      + (if TrimSpace(parts[|parts| - 1]) != "" then [TrimSpace(parts[|parts| - 1])] else [])
  }

  /** The positions listed go up, and are those of the parts that are not blank. */
  ghost predicate NonBlankAt(parts: seq<string>, at: seq<nat>) {
    && (forall k :: 0 <= k < |at| ==> at[k] < |parts| && !AllSpace(parts[at[k]]))
    && (forall k, l :: 0 <= k < l < |at| ==> at[k] < at[l])
    && (forall i :: 0 <= i < |parts| && !AllSpace(parts[i]) ==> i in at)
  }

  /** MAIN: what is kept is each non-blank part, trimmed, once, and in its place in the order. */
  lemma {:induction false} KeptIsEachNonBlank(parts: seq<string>) returns (at: seq<nat>)
    ensures NonBlankAt(parts, at) && |Kept(parts)| == |at|
    ensures forall k :: 0 <= k < |at| ==> Kept(parts)[k] == TrimSpace(parts[at[k]])
  {
    hide IsSpace;
    at := [];
    if parts != [] {
      var n := |parts| - 1;
      at := KeptIsEachNonBlank(parts[..n]);
      assert forall i :: 0 <= i < n ==> parts[..n][i] == parts[i];
      if !AllSpace(parts[n]) {
        var before := at;
        at := at + [n];
        assert forall i :: i in before ==> i in at;
        assert at[|before|] == n;
      }
    }
  }

  /** splitCSV: a blank value gives nil, any other value its non-blank parts. */
  method SplitCSV(value: string) returns (r: Option<seq<string>>)
    ensures r.None? <==> AllSpace(value)
    ensures r.GetOr([]) == Kept(Split(value))
    ensures exists at :: NonBlankAt(Split(value), at) && |r.GetOr([])| == |at|
                         && forall k :: 0 <= k < |at| ==> r.GetOr([])[k] == TrimSpace(Split(value)[at[k]])
  {
    ghost var at := KeptIsEachNonBlank(Split(value));
    if TrimSpace(value) == "" {
      BlankHasOnePart(value);
      return None;
    }
    var parts := Split(value);
    var result: seq<string> := [];
    for i := 0 to |parts|
      invariant result == Kept(parts[..i])
    {
      assert parts[..i + 1][..i] == parts[..i];
      var part := TrimSpace(parts[i]);
      if part != "" {
        result := result + [part];
      }
    }
    assert parts[..|parts|] == parts;
    return Some(result);
  }

  lemma {:induction false} BlankHasOnePart(s: string)
    requires AllSpace(s)
    ensures Split(s) == [s] && Kept(Split(s)) == []
  {
    OnePart(s);
    assert [s][..0] == [];
    assert Kept([s][..0]) == [];
  }

  lemma {:induction false} OnePart(s: string)
    requires CommaFree(s)
    ensures Split(s) == [s]
  {
    if s != "" {
      OnePart(s[1..]);
      assert [s[0]] + s[1..] == s;
    }
  }

  /** The parts of a value are its only comma-free parts: joining gives the value back. */
  lemma {:induction false} JoinOfSplit(s: string)
    ensures Join(Split(s)) == s && AllCommaFree(Split(s))
  {
    if s != "" {
      JoinOfSplit(s[1..]);
      var rest := Split(s[1..]);
      var parts := Split(s);
      if s[0] == ',' {
        assert parts[1..] == rest;
        assert "" + "," + s[1..] == s;
      } else {
        assert parts[1..] == rest[1..];
        assert CommaFree(parts[0]);
        assert forall k :: 0 < k < |parts| ==> parts[k] == rest[k];
        if |parts| == 1 {
          assert [s[0]] + rest[0] == s;
        } else {
          assert [s[0]] + rest[0] + "," + Join(rest[1..]) == [s[0]] + (rest[0] + "," + Join(rest[1..]));
        }
      }
    }
  }

  /** MAIN: Split inverts Join on every non-empty list of comma-free parts. */
  lemma {:induction false} SplitOfJoin(parts: seq<string>)
    requires parts != [] && AllCommaFree(parts)
    ensures Split(Join(parts)) == parts
  {
    if |parts| == 1 {
      OnePart(parts[0]);
    } else {
      SplitOfJoin(parts[1..]);
      Prefixed(parts[0], Join(parts[1..]));
      assert [parts[0]] + parts[1..] == parts;
    }
  }

  lemma {:induction false} Prefixed(p: string, s: string)
    requires CommaFree(p)
    ensures Split(p + "," + s) == [p] + Split(s)
  {
    var t := p + "," + s;
    if p == "" {
      assert t[1..] == s;
    } else {
      Prefixed(p[1..], s);
      assert t[1..] == p[1..] + "," + s;
      assert [p[0]] + p[1..] == p;
    }
  }

  /** A list as splitCSV returns it. */
  predicate Clean(xs: seq<string>) {
    forall k :: 0 <= k < |xs| ==> xs[k] != "" && Trimmed(xs[k]) && CommaFree(xs[k])
  }

  lemma {:induction false} KeptIsClean(parts: seq<string>)
    requires AllCommaFree(parts)
    ensures Clean(Kept(parts))
  {
    hide IsSpace;
    if parts != [] {
      KeptIsClean(parts[..|parts| - 1]);
      TrimKeepsCharacters(parts[|parts| - 1]);
    }
  }

  lemma {:induction false} TrimKeepsCharacters(s: string)
    ensures forall c :: c in TrimSpace(s) ==> c in s
  {
    hide IsSpace;
    if s != "" {
      if IsSpace(s[0]) {
        TrimKeepsCharacters(s[1..]);
      } else if IsSpace(s[|s| - 1]) {
        TrimKeepsCharacters(s[..|s| - 1]);
      }
    }
  }

  lemma {:induction false} CleanIsKept(xs: seq<string>)
    requires Clean(xs)
    ensures Kept(xs) == xs
  {
    hide IsSpace;
    if xs != [] {
      CleanIsKept(xs[..|xs| - 1]);
    }
  }

  /**
   * MAIN: what splitCSV keeps is always clean; on a joined clean list it gives that list back; so
   * splitting the join of its own output changes nothing.
   */
  lemma SplitCsvRoundTrips(value: string, xs: seq<string>)
    ensures Clean(Kept(Split(value)))
    ensures Clean(xs) ==> Kept(Split(Join(xs))) == xs
    ensures Kept(Split(Join(Kept(Split(value))))) == Kept(Split(value))
  {
    JoinOfSplit(value);
    KeptIsClean(Split(value));
    CleanRoundTrip(Kept(Split(value)));
    if Clean(xs) {
      CleanRoundTrip(xs);
    }
  }

  lemma CleanRoundTrip(xs: seq<string>)
    requires Clean(xs)
    ensures Kept(Split(Join(xs))) == xs
  {
    if xs == [] {
      BlankHasOnePart("");
    } else {
      SplitOfJoin(xs);
      CleanIsKept(xs);
    }
  }
}
