/**
 * The `configurations` property of a registry's properties file is a
 * comma-separated list `id1,config1,id2,config2,...`, read with Java's
 * `String.split(",")`. That method splits at every comma, returns the whole
 * string when there is no comma, and otherwise drops the trailing empty
 * pieces.
 */
module Tokens {

  const Separator: char := ','

  /** The pieces between commas, empty ones included. */
  function SplitAll(s: string): (parts: seq<string>)
    ensures |parts| >= 1
    ensures forall i :: 0 <= i < |parts| ==> Separator !in parts[i]
  {
    if s == [] then [""]
    else if s[0] == Separator then [""] + SplitAll(s[1..])
    else
      var rest := SplitAll(s[1..]);
      [[s[0]] + rest[0]] + rest[1..]
  }

  /** The pieces glued back together with commas. */
  function Join(parts: seq<string>): string
    requires |parts| >= 1
  {
    if |parts| == 1 then parts[0] else parts[0] + [Separator] + Join(parts[1..])
  }

  /** Joining the pieces gives back the original string. */
  lemma {:induction false} JoinSplitAll(s: string)
    ensures Join(SplitAll(s)) == s
  {
    if s == [] {
    } else if s[0] == Separator {
      JoinSplitAll(s[1..]);
      assert SplitAll(s)[1..] == SplitAll(s[1..]);
    } else {
      var rest := SplitAll(s[1..]);
      JoinSplitAll(s[1..]);
      if |rest| == 1 {
      } else {
        assert SplitAll(s)[1..] == rest[1..];
        assert Join(rest) == rest[0] + [Separator] + Join(rest[1..]);
      }
    }
  }

  /** Splitting a comma-joined list of comma-free pieces gives back the pieces. */
  lemma {:induction false} SplitAllJoin(parts: seq<string>)
    requires |parts| >= 1
    requires forall i :: 0 <= i < |parts| ==> Separator !in parts[i]
    ensures SplitAll(Join(parts)) == parts
    decreases |parts|, |parts[0]|
  {
    var p := parts[0];
    if p == [] {
      if |parts| > 1 {
        SplitAllJoin(parts[1..]);
        assert Join(parts) == [Separator] + Join(parts[1..]);
        assert Join(parts)[1..] == Join(parts[1..]);
      }
    } else {
      var shorter := [p[1..]] + parts[1..];
      assert forall i :: 0 <= i < |shorter| ==> Separator !in shorter[i] by {
        forall i | 0 <= i < |shorter| ensures Separator !in shorter[i] {
          if i == 0 { assert Separator !in p; } else { assert shorter[i] == parts[i]; }
        }
      }
      SplitAllJoin(shorter);
      assert shorter[1..] == parts[1..];
      assert Join(parts) == [p[0]] + Join(shorter);
      assert Join(parts)[1..] == Join(shorter);
      assert p[0] != Separator;
      assert [p[0]] + p[1..] == p;
      assert [[p[0]] + p[1..]] + parts[1..] == parts;
    }
  }

  /** Drops the empty pieces at the end, as `split` does. */
  function DropTrailingEmpty(parts: seq<string>): (kept: seq<string>)
    ensures kept <= parts
    ensures kept == [] || kept[|kept| - 1] != ""
    ensures forall i :: |kept| <= i < |parts| ==> parts[i] == ""
  {
    if parts == [] then []
    else if parts[|parts| - 1] == "" then DropTrailingEmpty(parts[..|parts| - 1])
    else parts
  }

  /** Java's `s.split(",")`. */
  function Split(s: string): (tokens: seq<string>)
    ensures forall i :: 0 <= i < |tokens| ==> Separator !in tokens[i]
    ensures Separator !in s ==> tokens == [s]
  {
    if Separator !in s then [s] else DropTrailingEmpty(SplitAll(s))
  }

  /**
   * A list of non-empty, comma-free tokens survives the round trip through
   * the property value unchanged.
   */
  lemma SplitJoin(tokens: seq<string>)
    requires |tokens| >= 1
    requires forall i :: 0 <= i < |tokens| ==> tokens[i] != [] && Separator !in tokens[i]
    ensures Split(Join(tokens)) == tokens
  {
    SplitAllJoin(tokens);
  }

  /** An empty property value is one token, not zero. */
  lemma SplitEmpty()
    ensures Split("") == [""]
  {
  }

  /** A trailing comma is ignored; a lone comma gives no tokens at all. */
  lemma SplitTrailingComma()
    ensures Split("a,x,") == ["a", "x"]
    ensures Split(",") == []
  {
    assert SplitAll("a,x,") == ["a", "x", ""] by {
      assert ","[1..] == "";
      assert SplitAll(",") == ["", ""];
      assert "x,"[1..] == ",";
      assert ['x'] + "" == "x";
      assert SplitAll("x,") == [['x'] + ""] + [""];
      assert ",x,"[1..] == "x,";
      assert SplitAll(",x,") == ["", "x", ""];
      assert "a,x,"[1..] == ",x,";
      assert ['a'] + "" == "a";
      assert SplitAll("a,x,") == [['a'] + ""] + ["x", ""];
    }
    assert SplitAll(",") == ["", ""];
  }
}
