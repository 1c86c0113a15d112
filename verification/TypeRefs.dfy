/** References to types in other files, as the code generator reads and prints them. */
module TypeRefs {
  import opened Wrappers
  import opened Strings

  /** The file a type is defined in, as the segments of its path, and the name of the type. */
  datatype TypeRef = TypeRef(path: seq<string>, name: string)

  const SEPARATOR := "#/"

  /** `split("#/")`. */
  function SplitParts(s: string): (parts: seq<string>)
    ensures |parts| > 0
  {
    if s == "" then [""]
    else if SEPARATOR <= s then [""] + SplitParts(s[2..])
    else
      var rest := SplitParts(s[1..]);
      [[s[0]] + rest[0]] + rest[1..]
  }

  /** `trim_start_matches('/')`. */
  function TrimSlashes(s: string): string {
    if s != "" && s[0] == '/' then TrimSlashes(s[1..]) else s
  }

  /** `TypeRef::from_reference`; None is the error for an unexpected reference. */
  function FromReference(r: string): Option<TypeRef> {
    var parts := SplitParts(TrimSlashes(r));
    if |parts| != 2 then None else Some(TypeRef(Split(parts[0], '/'), parts[1]))
  }

  /** The printed form of a reference, without the words before it. */
  function Print(t: TypeRef): string {
    "/" + Join(t.path, '/') + SEPARATOR + t.name
  }

  /** `#/` is nowhere in the text. */
  predicate NoSeparator(s: string) {
    s == "" || (!(SEPARATOR <= s) && NoSeparator(s[1..]))
  }

  function JoinParts(parts: seq<string>): string
    requires |parts| > 0
  {
    if |parts| == 1 then parts[0] else parts[0] + SEPARATOR + JoinParts(parts[1..])
  }

  lemma PrependToFirst(c: char, parts: seq<string>)
    requires |parts| > 0
    ensures JoinParts([[c] + parts[0]] + parts[1..]) == [c] + JoinParts(parts)
  {
    var longer := [[c] + parts[0]] + parts[1..];
    assert longer[1..] == parts[1..];
    if |parts| > 1 {
      PrependToSum(c, parts[0], SEPARATOR, JoinParts(parts[1..]));
    }
  }

  lemma PrependToSum(c: char, a: string, b: string, d: string)
    ensures ([c] + a) + b + d == [c] + (a + b + d)
  {
  }

  lemma PrependEmpty(parts: seq<string>)
    requires |parts| > 0
    ensures JoinParts([""] + parts) == SEPARATOR + JoinParts(parts)
  {
    var longer := [""] + parts;
    assert longer[1..] == parts && longer[0] == "" && |longer| > 1;
    assert JoinParts(longer) == longer[0] + SEPARATOR + JoinParts(longer[1..]);
  }

  lemma {:induction false} PartsJoin(s: string)
    ensures JoinParts(SplitParts(s)) == s
  {
    if s == "" {
    } else if SEPARATOR <= s {
      PartsJoin(s[2..]);
      PrependEmpty(SplitParts(s[2..]));
      assert s == SEPARATOR + s[2..];
    } else {
      PartsJoin(s[1..]);
      PrependToFirst(s[0], SplitParts(s[1..]));
      assert s == [s[0]] + s[1..];
    }
  }

  /** There is one part exactly if the separator is not in the text, and then it is the text. */
  lemma {:induction false} OnePartIff(s: string)
    ensures NoSeparator(s) <==> |SplitParts(s)| == 1
    ensures NoSeparator(s) ==> SplitParts(s) == [s]
  {
    if s != "" {
      if !(SEPARATOR <= s) {
        OnePartIff(s[1..]);
        assert [s[0]] + s[1..] == s;
      }
    }
  }

  /** The first part begins as the text does. */
  lemma FirstPart(s: string)
    ensures SplitParts(s)[0] == "" || (s != "" && SplitParts(s)[0][0] == s[0])
  {
  }

  /** No part has the separator in it. */
  lemma {:induction false} PartsHaveNoSeparator(s: string)
    ensures forall i :: 0 <= i < |SplitParts(s)| ==> NoSeparator(SplitParts(s)[i])
  {
    if s != "" {
      if SEPARATOR <= s {
        PartsHaveNoSeparator(s[2..]);
      } else {
        PartsHaveNoSeparator(s[1..]);
        FirstPart(s[1..]);
        var rest := SplitParts(s[1..]);
        var first := [s[0]] + rest[0];
        assert first[1..] == rest[0];
        assert |first| > 1 ==> first[1] == s[1];
      }
    }
  }

  lemma {:induction false} TwoParts(a: string, b: string)
    requires NoSeparator(a) && NoSeparator(b)
    ensures SplitParts(a + SEPARATOR + b) == [a, b]
    decreases |a|
  {
    var s := a + SEPARATOR + b;
    if a == "" {
      assert s[2..] == b;
      OnePartIff(b);
    } else {
      assert s[1..] == a[1..] + SEPARATOR + b;
      TwoParts(a[1..], b);
      assert s[0] == a[0] && s[1] == if |a| > 1 then a[1] else '#';
      assert [a[0]] + a[1..] == a;
    }
  }

  lemma {:induction false} TrimKeeps(s: string)
    ensures TrimSlashes(s) == s <==> s == "" || s[0] != '/'
    ensures |TrimSlashes(s)| <= |s|
  {
    if s != "" && s[0] == '/' {
      TrimKeeps(s[1..]);
    }
  }

  /** What `from_reference` gives back unchanged. */
  predicate WellFormed(t: TypeRef) {
    var joined := Join(t.path, '/');
    && t.path != []
    && (forall i :: 0 <= i < |t.path| ==> '/' !in t.path[i])
    && (joined == "" || joined[0] != '/')
    && NoSeparator(joined) && NoSeparator(t.name)
  }

  lemma WellFormedRoundTrip(t: TypeRef)
    requires WellFormed(t)
    ensures FromReference(Print(t)) == Some(t)
  {
    var joined := Join(t.path, '/');
    var s := joined + SEPARATOR + t.name;
    assert Print(t)[0] == '/' && Print(t)[1..] == s;
    TrimKeeps(s);
    TwoParts(joined, t.name);
    SplitJoin(t.path, '/');
  }

  /** Printing a reference and reading it again is the identity exactly on the well-formed ones. */
  lemma RoundTripIff(t: TypeRef)
    ensures FromReference(Print(t)) == Some(t) <==> WellFormed(t)
  {
    if WellFormed(t) {
      WellFormedRoundTrip(t);
    }
    if FromReference(Print(t)) == Some(t) {
      var joined := Join(t.path, '/');
      var s := joined + SEPARATOR + t.name;
      assert Print(t)[0] == '/' && Print(t)[1..] == s;
      var parts := SplitParts(TrimSlashes(s));
      PartsJoin(TrimSlashes(s));
      assert parts[1..] == [parts[1]];
      PartsHaveNoSeparator(TrimSlashes(s));
      JoinSplit(parts[0], '/');
      SplitPartsFree(parts[0], '/');
      TrimKeeps(s);
    }
  }

  /** Every reference that is read is well-formed, up to leading slashes in its text. */
  lemma ReadIsWellFormed(r: string)
    ensures FromReference(r).Some? ==> FromReference(Print(FromReference(r).value)) == FromReference(r)
  {
    if FromReference(r).Some? {
      var s := TrimSlashes(r);
      var parts := SplitParts(s);
      PartsJoin(s);
      assert parts[1..] == [parts[1]];
      PartsHaveNoSeparator(s);
      JoinSplit(parts[0], '/');
      SplitPartsFree(parts[0], '/');
      TrimmedStart(r);
      assert s == parts[0] + SEPARATOR + parts[1];
      assert parts[0] != "" ==> s[0] == parts[0][0];
      WellFormedRoundTrip(FromReference(r).value);
    }
  }

  /** A reference is read exactly if behind its leading slashes it is a path of segments, "#/" and a name. */
  lemma ReadIff(r: string, t: TypeRef)
    ensures FromReference(r) == Some(t) <==>
            && TrimSlashes(r) == Join(t.path, '/') + "#/" + t.name
            && t.path != [] && (forall i :: 0 <= i < |t.path| ==> '/' !in t.path[i])
            && NoSeparator(Join(t.path, '/')) && NoSeparator(t.name)
  {
    var s := TrimSlashes(r);
    var joined := Join(t.path, '/');
    if FromReference(r) == Some(t) {
      var parts := SplitParts(s);
      PartsJoin(s);
      assert parts[1..] == [parts[1]];
      PartsHaveNoSeparator(s);
      JoinSplit(parts[0], '/');
      SplitPartsFree(parts[0], '/');
    }
    if s == joined + "#/" + t.name && t.path != [] && (forall i :: 0 <= i < |t.path| ==> '/' !in t.path[i])
       && NoSeparator(joined) && NoSeparator(t.name)
    {
      TwoParts(joined, t.name);
      SplitJoin(t.path, '/');
    }
  }

  /** What is trimmed are slashes. */
  lemma {:induction false} TrimmedAre(s: string)
    ensures var n := |s| - |TrimSlashes(s)|;
            && 0 <= n && s[n..] == TrimSlashes(s) && forall i :: 0 <= i < n ==> s[i] == '/'
  {
    if s != "" && s[0] == '/' {
      TrimmedAre(s[1..]);
      assert forall i :: 1 <= i < |s| ==> s[i] == s[1..][i - 1];
    }
  }

  lemma {:induction false} TrimmedStart(s: string)
    ensures TrimSlashes(s) == "" || TrimSlashes(s)[0] != '/'
  {
    if s != "" && s[0] == '/' {
      TrimmedStart(s[1..]);
    }
  }
}
