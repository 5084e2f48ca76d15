/**
 * The two string operations the selector resolver relies on: joining names
 * with "," (what the StringBuilder loops produce) and Java's String.split(",")
 * (which drops trailing empty pieces).
 */
module JavaStrings {

  /** The names joined with a single "," between consecutive names; "" for no names. */
  function Join(ks: seq<string>): (s: string)
    ensures |ks| >= 2 ==> ',' in s
  {
    if |ks| == 0 then ""
    else if |ks| == 1 then ks[0]
    else
      var s := ks[0] + "," + Join(ks[1..]);
      assert s[|ks[0]|] == ',';
      s
  }

  /** Index of the first "," in s. */
  function FirstComma(s: string): (i: nat)
    requires ',' in s
    ensures i < |s| && s[i] == ','
    ensures ',' !in s[..i]
  {
    if s[0] == ',' then 0
    else
      assert ',' in s[1..] by { var j :| 0 <= j < |s| && s[j] == ','; assert s[1..][j - 1] == ','; }
      var i := 1 + FirstComma(s[1..]);
      assert s[..i] == [s[0]] + s[1..][..i - 1];
      i
  }

  /** Every piece between separators, empty pieces included: k commas give k + 1 pieces. */
  function RawSplit(s: string): (ps: seq<string>)
    ensures |ps| >= 1
    ensures forall i :: 0 <= i < |ps| ==> ',' !in ps[i]
    decreases |s|
  {
    if ',' !in s then [s]
    else
      var i := FirstComma(s);
      [s[..i]] + RawSplit(s[i + 1..])
  }

  /** The pieces without the run of empty pieces at the end. */
  function DropTrailingEmpty(ps: seq<string>): (r: seq<string>)
    ensures r <= ps
    ensures r == [] || r[|r| - 1] != ""
    ensures forall i :: |r| <= i < |ps| ==> ps[i] == ""
  {
    if ps == [] then []
    else if ps[|ps| - 1] == "" then DropTrailingEmpty(ps[..|ps| - 1])
    else ps
  }

  /**
   * Java's s.split(","): a string without a separator is its own only piece;
   * otherwise the pieces between separators, trailing empty pieces removed.
   */
  function Split(s: string): (ps: seq<string>)
    ensures forall i :: 0 <= i < |ps| ==> ',' !in ps[i]
    ensures ',' !in s ==> ps == [s]
  {
    if ',' !in s then [s] else DropTrailingEmpty(RawSplit(s))
  }

  predicate CommaFree(ks: seq<string>)
  {
    forall i :: 0 <= i < |ks| ==> ',' !in ks[i]
  }

  /** Appending one more name to a non-empty list adds one separator and the name. */
  lemma {:induction false} JoinSnoc(ks: seq<string>, k: string)
    requires |ks| >= 1
    ensures Join(ks + [k]) == Join(ks) + "," + k
    decreases |ks|
  {
    if |ks| == 1 {
      assert ks + [k] == [ks[0], k];
      assert Join([k]) == k;
    } else {
      assert (ks + [k])[1..] == ks[1..] + [k];
      JoinSnoc(ks[1..], k);
    }
  }

  /** Joined comma-free names contain a separator exactly when there are two or more. */
  lemma {:induction false} JoinHasComma(ks: seq<string>)
    requires CommaFree(ks)
    ensures ',' in Join(ks) <==> |ks| >= 2
  {
    if |ks| >= 2 {
      assert Join(ks)[|ks[0]|] == ',';
    }
  }

  /** Splitting joined comma-free names gives the names back, empty ones included. */
  lemma {:induction false} RawSplitJoin(ks: seq<string>)
    requires |ks| >= 1 && CommaFree(ks)
    ensures RawSplit(Join(ks)) == ks
    decreases |ks|
  {
    if |ks| >= 2 {
      var s := Join(ks);
      var rest := Join(ks[1..]);
      assert s == ks[0] + "," + rest;
      assert s[..|ks[0]|] == ks[0];
      assert s[|ks[0]|] == ',';
      assert ',' !in s[..|ks[0]|];
      assert s[|ks[0]| + 1..] == rest;
      assert CommaFree(ks[1..]) by {
        forall i | 0 <= i < |ks[1..]| ensures ',' !in ks[1..][i] { assert ks[1..][i] == ks[i + 1]; }
      }
      RawSplitJoin(ks[1..]);
      assert FirstComma(s) == |ks[0]|;
    }
  }

  /** Joining the raw pieces of a string rebuilds the string. */
  lemma {:induction false} JoinRawSplit(s: string)
    ensures Join(RawSplit(s)) == s
    decreases |s|
  {
    if ',' in s {
      var i := FirstComma(s);
      var ps := [s[..i]] + RawSplit(s[i + 1..]);
      assert RawSplit(s) == ps;
      assert ps[0] == s[..i] && ps[1..] == RawSplit(s[i + 1..]);
      JoinRawSplit(s[i + 1..]);
      assert Join(ps) == s[..i] + "," + s[i + 1..];
      assert s == s[..i] + "," + s[i + 1..];
    }
  }

  /** Java's split of two or more joined comma-free names: the names, trailing empty names dropped. */
  lemma SplitJoin(ks: seq<string>)
    requires |ks| >= 2 && CommaFree(ks)
    ensures Split(Join(ks)) == DropTrailingEmpty(ks)
  {
    JoinHasComma(ks);
    RawSplitJoin(ks);
  }
}
