/** Matching of topic names against subscription filters: `MQTTAbstractionImpl::check_topic_matches`. */
module TopicMatch {
  import opened Strings

  /** The comparison of the split topic and filter from part `i` on. */
  function LevelsMatch(full: seq<string>, wild: seq<string>, i: nat): bool
    decreases |full| - i
  {
    if i >= |full| then |full| == |wild|
    else if |wild| <= i then false
    else if full[i] == wild[i] || wild[i] == "+" then LevelsMatch(full, wild, i + 1)
    else wild[i] == "#"
  }

  predicate EndsInHash(s: string) {
    |s| >= 2 && s[|s| - 2..] == "/#"
  }

  /** What `check_topic_matches` decides: verbatim equality, the filter without its last "/#", or the parts. */
  function TopicMatches(full: string, wild: string): bool
    decreases |wild|
  {
    || full == wild
    || (EndsInHash(wild) && TopicMatches(full, wild[..|wild| - 2]))
    || LevelsMatch(Split(full, '/'), Split(wild, '/'), 0)
  }

  method CheckTopicMatches(full: string, wild: string) returns (matches: bool)
    ensures matches == TopicMatches(full, wild)
    decreases |wild|
  {
    if full == wild {
      return true;
    }
    if |wild| >= 2 {
      var start := wild[..|wild| - 2];
      var end := wild[|wild| - 2..];
      if end == "/#" {
        var startMatches := CheckTopicMatches(full, start);
        if startMatches {
          return true;
        }
      }
    }
    var fullSplit := Split(full, '/');
    var wildSplit := Split(wild, '/');
    var partno := 0;
    while partno < |fullSplit|
      invariant 0 <= partno <= |fullSplit|
      invariant LevelsMatch(fullSplit, wildSplit, 0) == LevelsMatch(fullSplit, wildSplit, partno)
    {
      if |wildSplit| <= partno {
        return false;
      }
      if fullSplit[partno] == wildSplit[partno] {
        partno := partno + 1;
        continue;
      }
      if wildSplit[partno] == "+" {
        partno := partno + 1;
        continue;
      }
      return wildSplit[partno] == "#";
    }
    return |fullSplit| == |wildSplit|;
  }

  /** A topic name: section 4.7.1 of MQTT Version 3.1.1 forbids wildcard characters in it. */
  predicate IsTopicName(t: string) {
    '+' !in t && '#' !in t
  }

  /** Sections 4.7.1.2 and 4.7.1.3 of MQTT Version 3.1.1: a wildcard fills its level, and '#' only the last one. */
  predicate WellFormedLevels(f: seq<string>) {
    forall i :: 0 <= i < |f| ==>
      && ('#' in f[i] ==> f[i] == "#" && i == |f| - 1)
      && ('+' in f[i] ==> f[i] == "+")
  }

  predicate WellFormedFilter(f: string) {
    WellFormedLevels(Split(f, '/'))
  }

  predicate LevelAccepts(f: seq<string>, t: seq<string>, n: nat)
    requires n <= |f| && n <= |t|
  {
    forall i :: 0 <= i < n ==> f[i] == "+" || f[i] == t[i]
  }

  /**
   * The level-wise match of section 4.7.1 of MQTT Version 3.1.1: '#' stands for the parent and
   * any number of child levels, '+' for exactly one level, any other level for itself.
   */
  predicate StandardMatch(t: seq<string>, f: seq<string>)
    requires |f| > 0
  {
    if f[|f| - 1] == "#" then |t| >= |f| - 1 && LevelAccepts(f, t, |f| - 1)
    else |t| == |f| && LevelAccepts(f, t, |f|)
  }

  predicate Accepts(topic: string, filter: string) {
    StandardMatch(Split(topic, '/'), Split(filter, '/'))
  }

  lemma {:induction false} LevelsMatchExact(t: seq<string>, f: seq<string>, i: nat)
    requires i <= |t| && i <= |f|
    requires forall k :: 0 <= k < |f| ==> f[k] != "#"
    ensures LevelsMatch(t, f, i) <==> |t| == |f| && forall k :: i <= k < |f| ==> f[k] == "+" || f[k] == t[k]
    decreases |t| - i
  {
    if i < |t| && i < |f| {
      LevelsMatchExact(t, f, i + 1);
    }
  }

  lemma {:induction false} LevelsMatchHash(t: seq<string>, f: seq<string>, i: nat)
    requires i <= |t| && i < |f|
    requires f[|f| - 1] == "#"
    requires forall k :: 0 <= k < |f| - 1 ==> f[k] != "#"
    requires forall k :: 0 <= k < |t| ==> t[k] != "#"
    ensures LevelsMatch(t, f, i) <==> |t| >= |f| && forall k :: i <= k < |f| - 1 ==> f[k] == "+" || f[k] == t[k]
    decreases |t| - i
  {
    if i < |t| && i < |f| - 1 {
      LevelsMatchHash(t, f, i + 1);
    }
  }

  lemma {:induction false} JoinLast(parts: seq<string>, c: char)
    requires |parts| >= 2
    ensures Join(parts, c) == Join(parts[..|parts| - 1], c) + [c] + parts[|parts| - 1]
  {
    var n := |parts| - 1;
    if |parts| == 2 {
      assert parts[1..] == [parts[1]] && parts[..1] == [parts[0]];
    } else {
      JoinLast(parts[1..], c);
      assert parts[1..][..n - 1] == parts[..n][1..];
      assert parts[..n][0] == parts[0];
    }
  }

  lemma SnocLast(levels: seq<string>, init: seq<string>, last: string)
    requires levels == init + [last] && |init| >= 1
    ensures |levels| >= 2 && levels[|levels| - 1] == last
  {
  }

  lemma HashEndIsLastLevel(f: string, start: string)
    requires f == start + "/#"
    ensures Split(f, '/') == Split(start, '/') + ["#"]
    ensures |Split(f, '/')| >= 2 && Split(f, '/')[|Split(f, '/')| - 1] == "#"
  {
    assert f == start + ['/'] + "#";
    SplitConcat(start, '/', "#");
    SplitFree("#", '/');
    SnocLast(Split(f, '/'), Split(start, '/'), "#");
  }

  lemma LastLevelIsHashEnd(f: string, levels: seq<string>)
    requires levels == Split(f, '/') && |levels| >= 2 && levels[|levels| - 1] == "#"
    ensures EndsInHash(f)
  {
    JoinSplit(f, '/');
    JoinLast(levels, '/');
    assert f == Join(levels[..|levels| - 1], '/') + "/#";
  }

  predicate LastIsHash(levels: seq<string>) {
    |levels| >= 2 && levels[|levels| - 1] == "#"
  }

  lemma BeforeHash(f: string)
    requires EndsInHash(f)
    ensures f == f[..|f| - 2] + "/#"
  {
  }

  lemma HashEndLevels(f: string, start: string)
    requires EndsInHash(f) && start == f[..|f| - 2]
    ensures LastIsHash(Split(f, '/')) && Split(f, '/') == Split(start, '/') + ["#"]
  {
    BeforeHash(f);
    HashEndIsLastLevel(f, start);
  }

  /** A filter that ends in "/#" has "#" as its last level, and not its only one. */
  lemma HashEndHasHashLevel(f: string)
    ensures EndsInHash(f) ==> LastIsHash(Split(f, '/'))
  {
    if EndsInHash(f) {
      HashEndLevels(f, f[..|f| - 2]);
    }
  }

  /** No level of a topic name contains a wildcard character. */
  lemma {:induction false} TopicNameLevels(t: string)
    requires IsTopicName(t)
    ensures forall i :: 0 <= i < |Split(t, '/')| ==> '#' !in Split(t, '/')[i] && '+' !in Split(t, '/')[i]
  {
    if t != "" {
      TopicNameLevels(t[1..]);
    }
  }

  /** Without wildcard levels the matcher is string equality, for every topic. */
  lemma PlainFilterIsEquality(topic: string, filter: string)
    requires forall i :: 0 <= i < |Split(filter, '/')| ==> Split(filter, '/')[i] != "+" && Split(filter, '/')[i] != "#"
    ensures TopicMatches(topic, filter) <==> topic == filter
  {
    var t, f := Split(topic, '/'), Split(filter, '/');
    HashEndHasHashLevel(filter);
    LevelsMatchExact(t, f, 0);
    if LevelsMatch(t, f, 0) {
      assert t == f;
      JoinSplit(topic, '/');
      JoinSplit(filter, '/');
    }
  }

  /** The case of a filter without a "#" level. */
  lemma MatchesWithoutHash(topic: string, filter: string)
    requires forall k :: 0 <= k < |Split(filter, '/')| ==> Split(filter, '/')[k] != "#"
    ensures TopicMatches(topic, filter) <==> Accepts(topic, filter)
  {
    HashEndHasHashLevel(filter);
    LevelsMatchExact(Split(topic, '/'), Split(filter, '/'), 0);
  }

  /** `check_topic_matches` decides the match of section 4.7.1, for every topic name and well-formed filter. */
  lemma MatcherMeetsStandard(topic: string, filter: string)
    requires IsTopicName(topic) && WellFormedFilter(filter)
    ensures TopicMatches(topic, filter) <==> Accepts(topic, filter)
  {
    var t, f := Split(topic, '/'), Split(filter, '/');
    if f[|f| - 1] != "#" {
      MatchesWithoutHash(topic, filter);
    } else {
      TopicNameLevels(topic);
      LevelsMatchHash(t, f, 0);
      HashEndHasHashLevel(filter);
      if |f| == 1 {
        JoinSplit(filter, '/');
        assert filter == "#";
        assert TopicMatches(topic, filter);
      } else {
        LastLevelIsHashEnd(filter, f);
        var start := filter[..|filter| - 2];
        HashEndLevels(filter, start);
        var s := Split(start, '/');
        assert f == s + ["#"];
        assert forall k :: 0 <= k < |s| ==> s[k] == f[k];
        MatchesWithoutHash(topic, start);
        assert topic != filter by {
          assert '#' in filter[|filter| - 2..];
        }
        assert Accepts(topic, start) <==> |t| == |s| && LevelAccepts(f, t, |s|);
      }
    }
  }

  // ---- Topics that begin with '$' ----

  predicate BeginsWithWildcard(filter: string) {
    filter != "" && (filter[0] == '+' || filter[0] == '#')
  }

  /**
   * Section 4.7.2 of MQTT Version 3.1.1: a filter that begins with a wildcard accepts no topic that
   * begins with '$'.
   */
  predicate AcceptsByBothSections(topic: string, filter: string) {
    Accepts(topic, filter) && !("$" <= topic && BeginsWithWildcard(filter))
  }

  /** Where the matcher departs from sections 4.7.1 and 4.7.2 together: it has no rule for '$'. */
  lemma MeetsBothSectionsIff(topic: string, filter: string)
    requires IsTopicName(topic) && WellFormedFilter(filter)
    ensures (TopicMatches(topic, filter) <==> AcceptsByBothSections(topic, filter)) <==>
            !("$" <= topic && BeginsWithWildcard(filter) && Accepts(topic, filter))
  {
    MatcherMeetsStandard(topic, filter);
  }
}
