/** Which subscription filters accept some topic that begins with a given prefix. */
module FilterCover {
  import opened Strings
  import opened TopicMatch

  /** The levels of a topic begin with the levels `p`, of which the last may be only begun. */
  predicate BeginsWith(t: seq<string>, p: seq<string>)
    requires |p| > 0
    decreases |p|
  {
    && |t| > 0
    && if |p| == 1 then p[0] <= t[0] else t[0] == p[0] && BeginsWith(t[1..], p[1..])
  }

  lemma SeparatorBegins(ts: seq<string>, ps: seq<string>)
    requires |ps| > 0
    ensures BeginsWith([""] + ts, [""] + ps) <==> BeginsWith(ts, ps)
  {
    assert ([""] + ps)[1..] == ps && ([""] + ts)[1..] == ts;
  }

  lemma CharacterBegins(c: char, ts: seq<string>, d: char, ps: seq<string>)
    requires |ts| > 0 && |ps| > 0
    ensures BeginsWith([[c] + ts[0]] + ts[1..], [[d] + ps[0]] + ps[1..]) <==> c == d && BeginsWith(ts, ps)
  {
    var t, p := [c] + ts[0], [d] + ps[0];
    assert ([t] + ts[1..])[1..] == ts[1..] && ([p] + ps[1..])[1..] == ps[1..];
    assert t[0] == c && t[1..] == ts[0] && p[0] == d && p[1..] == ps[0];
  }

  lemma ConsBegins(t: string, prefix: string)
    requires t != "" && prefix != ""
    ensures BeginsWith(Split(t, '/'), Split(prefix, '/')) <==>
            prefix[0] == t[0] && BeginsWith(Split(t[1..], '/'), Split(prefix[1..], '/'))
  {
    var ts, ps := Split(t[1..], '/'), Split(prefix[1..], '/');
    if prefix[0] == '/' && t[0] == '/' {
      SeparatorBegins(ts, ps);
    } else if prefix[0] != '/' && t[0] != '/' {
      CharacterBegins(t[0], ts, prefix[0], ps);
    }
  }

  lemma {:induction false} PrefixLevels(prefix: string, t: string)
    ensures prefix <= t <==> BeginsWith(Split(t, '/'), Split(prefix, '/'))
  {
    if prefix != "" {
      if t == "" {
        JoinSplit(prefix, '/');
      } else {
        PrefixLevels(prefix[1..], t[1..]);
        ConsBegins(t, prefix);
        assert prefix <= t <==> prefix[0] == t[0] && prefix[1..] <= t[1..];
      }
    }
  }

  /** Level by level, whether filter `f` leaves room for a topic that begins with `p`. */
  predicate LevelsCover(p: seq<string>, f: seq<string>)
    requires |p| > 0 && |f| > 0
    decreases |p|
  {
    if f == ["#"] then true
    else if |p| == 1 then f[0] == "+" || p[0] <= f[0]
    else (f[0] == "+" || f[0] == p[0]) && |f| > 1 && LevelsCover(p[1..], f[1..])
  }

  /** Whether a filter accepts some everest topic, as one can test before registering it. */
  predicate Covers(prefix: string, filter: string) {
    IsTopicName(prefix) && LevelsCover(Split(prefix, '/'), Split(filter, '/'))
  }

  /** Levels of topic names. */
  predicate PlainLevels(t: seq<string>) {
    forall i :: 0 <= i < |t| ==> '/' !in t[i] && IsTopicName(t[i])
  }

  lemma AcceptsCons(t: seq<string>, f: seq<string>, n: nat)
    requires 0 < n <= |f|
    ensures n <= |t| ==>
              (LevelAccepts(f, t, n) <==>
               (f[0] == "+" || f[0] == t[0]) && LevelAccepts(f[1..], t[1..], n - 1))
  {
    if n <= |t| && (f[0] == "+" || f[0] == t[0]) && LevelAccepts(f[1..], t[1..], n - 1) {
      forall i | 0 < i < n
        ensures f[i] == "+" || f[i] == t[i]
      {
        assert f[1..][i - 1] == f[i] && t[1..][i - 1] == t[i];
      }
    }
  }

  lemma StandardMatchCons(t: seq<string>, f: seq<string>)
    requires |t| > 0 && |f| > 1
    ensures StandardMatch(t, f) <==> (f[0] == "+" || f[0] == t[0]) && StandardMatch(t[1..], f[1..])
  {
    AcceptsCons(t, f, |f| - 1);
    AcceptsCons(t, f, |f|);
  }

  lemma {:induction false} AcceptedIsCovered(p: seq<string>, f: seq<string>, t: seq<string>)
    requires |p| > 0 && |f| > 0 && WellFormedLevels(f)
    requires BeginsWith(t, p) && StandardMatch(t, f)
    ensures LevelsCover(p, f)
    decreases |p|
  {
    if f != ["#"] {
      assert |f| > 1 ==> f[0] != "#";
      if |f| > 1 {
        StandardMatchCons(t, f);
        assert WellFormedLevels(f[1..]);
        if |p| > 1 {
          AcceptedIsCovered(p[1..], f[1..], t[1..]);
        }
      } else {
        assert f == [f[0]];
      }
    }
  }

  /** The levels of a topic that begins with `p` and that `f` accepts. */
  function LevelsUnder(p: seq<string>, f: seq<string>): (t: seq<string>)
    requires |p| > 0 && |f| > 0
    decreases |f|
  {
    if f == ["#"] then p
    else
      var first := if f[0] == "+" then p[0] else f[0];
      if |f| == 1 then [first]
      else [first] + LevelsUnder(if |p| == 1 then [""] else p[1..], f[1..])
  }

  lemma {:induction false} CoveredIsAccepted(p: seq<string>, f: seq<string>)
    requires |p| > 0 && |f| > 0 && WellFormedLevels(f) && LevelsCover(p, f)
    requires PlainLevels(p) && forall i :: 0 <= i < |f| ==> '/' !in f[i]
    ensures var t := LevelsUnder(p, f);
            PlainLevels(t) && BeginsWith(t, p) && StandardMatch(t, f)
    decreases |f|
  {
    var t := LevelsUnder(p, f);
    if f == ["#"] {
      BeginsWithItself(p);
    } else if |f| > 1 {
      assert f[0] != "#";
      assert WellFormedLevels(f[1..]);
      var p' := if |p| == 1 then [""] else p[1..];
      CoversEmpty(f[1..]);
      CoveredIsAccepted(p', f[1..]);
      assert t[1..] == LevelsUnder(p', f[1..]);
      StandardMatchCons(t, f);
    }
  }

  lemma CoversEmpty(f: seq<string>)
    requires |f| > 0
    ensures LevelsCover([""], f)
  {
  }

  lemma {:induction false} BeginsWithItself(p: seq<string>)
    requires |p| > 0
    ensures BeginsWith(p, p)
    decreases |p|
  {
    if |p| > 1 {
      BeginsWithItself(p[1..]);
    }
  }

  function TopicUnder(prefix: string, filter: string): string {
    Join(LevelsUnder(Split(prefix, '/'), Split(filter, '/')), '/')
  }

  lemma {:induction false} JoinIsTopicName(t: seq<string>)
    requires PlainLevels(t)
    ensures IsTopicName(Join(t, '/'))
  {
    if |t| > 1 {
      JoinIsTopicName(t[1..]);
    }
  }

  /** The test is exact: a filter that passes it accepts some topic name under the prefix, any other accepts none. */
  lemma CoversExactly(prefix: string, filter: string)
    requires WellFormedFilter(filter)
    ensures Covers(prefix, filter) ==>
              var t := TopicUnder(prefix, filter); IsTopicName(t) && prefix <= t && Accepts(t, filter)
    ensures !Covers(prefix, filter) ==> forall t :: IsTopicName(t) && prefix <= t ==> !Accepts(t, filter)
  {
    if Covers(prefix, filter) {
      AcceptsUnder(prefix, filter);
    }
    forall t | IsTopicName(t) && prefix <= t && Accepts(t, filter)
      ensures Covers(prefix, filter)
    {
      PrefixLevels(prefix, t);
      assert forall c :: c in prefix ==> c in t;
      AcceptedIsCovered(Split(prefix, '/'), Split(filter, '/'), Split(t, '/'));
    }
  }

  lemma AcceptsUnder(prefix: string, filter: string)
    requires WellFormedFilter(filter) && Covers(prefix, filter)
    ensures var t := TopicUnder(prefix, filter); IsTopicName(t) && prefix <= t && Accepts(t, filter)
  {
    var p, f := Split(prefix, '/'), Split(filter, '/');
    TopicNameLevels(prefix);
    SplitPartsFree(prefix, '/');
    SplitPartsFree(filter, '/');
    CoveredIsAccepted(p, f);
    var t := LevelsUnder(p, f);
    JoinIsTopicName(t);
    SplitJoin(t, '/');
    PrefixLevels(prefix, Join(t, '/'));
  }

  // ---- Topics that begin with '$' ----

  lemma FirstLevel(filter: string)
    requires WellFormedFilter(filter)
    ensures BeginsWithWildcard(filter) <==> Split(filter, '/')[0] == "+" || Split(filter, '/')[0] == "#"
    ensures Split(filter, '/')[0] == "#" ==> Split(filter, '/') == ["#"]
  {
    var first := Split(filter, '/')[0];
    if filter != "" && filter[0] != '/' {
      assert first[0] == filter[0];
    }
    assert '+' in first ==> first == "+";
    assert '#' in first ==> first == "#";
  }

  /**
   * A filter departs from section 4.7.2 of MQTT Version 3.1.1, for some topic name, exactly if it
   * begins with a wildcard.
   */
  lemma DepartsForSomeTopicIff(filter: string)
    requires WellFormedFilter(filter)
    ensures (exists t :: IsTopicName(t) && TopicMatches(t, filter) != AcceptsByBothSections(t, filter)) <==>
            BeginsWithWildcard(filter)
  {
    forall t | IsTopicName(t)
      ensures TopicMatches(t, filter) != AcceptsByBothSections(t, filter) <==>
              "$" <= t && BeginsWithWildcard(filter) && Accepts(t, filter)
    {
      MeetsBothSectionsIff(t, filter);
    }
    if BeginsWithWildcard(filter) {
      FirstLevel(filter);
      SplitFree("$", '/');
      AcceptsUnder("$", filter);
      var t := TopicUnder("$", filter);
      assert TopicMatches(t, filter) != AcceptsByBothSections(t, filter);
    }
  }

  /** Whether a broker brings some topic under the prefix by this filter, section 4.7.2 included. */
  predicate Brings(prefix: string, filter: string) {
    Covers(prefix, filter) && !("$" <= prefix && BeginsWithWildcard(filter))
  }

  /** Below the empty prefix a filter that begins with a wildcard accepts a topic without '$'. */
  lemma WildcardUnderEmpty(filter: string)
    requires WellFormedFilter(filter) && BeginsWithWildcard(filter)
    ensures !("$" <= TopicUnder("", filter))
  {
    FirstLevel(filter);
    var p, f := [""], Split(filter, '/');
    assert Split("", '/') == p;
    EmptyFirstLevel(p, f);
    NoDollarFirst(LevelsUnder(p, f));
  }

  lemma EmptyFirstLevel(p: seq<string>, f: seq<string>)
    requires p == [""] && |f| > 0 && (f[0] == "+" || f == ["#"])
    ensures |LevelsUnder(p, f)| > 0 && LevelsUnder(p, f)[0] == ""
  {
  }

  lemma NoDollarFirst(t: seq<string>)
    requires |t| > 0 && t[0] == ""
    ensures !("$" <= Join(t, '/'))
  {
    if |t| > 1 {
      assert Join(t, '/') == t[0] + ['/'] + Join(t[1..], '/');
      assert Join(t, '/')[0] == '/';
    }
  }

  /** This test is exact, too. */
  lemma BringsExactly(prefix: string, filter: string)
    requires WellFormedFilter(filter)
    ensures Brings(prefix, filter) ==>
              var t := TopicUnder(prefix, filter); IsTopicName(t) && prefix <= t && AcceptsByBothSections(t, filter)
    ensures !Brings(prefix, filter) ==>
              forall t :: IsTopicName(t) && prefix <= t ==> !AcceptsByBothSections(t, filter)
  {
    CoversExactly(prefix, filter);
    if prefix == "" && BeginsWithWildcard(filter) {
      WildcardUnderEmpty(filter);
    }
  }
}
