/** `_.groupBy(styles, 'type')` followed by `Object.entries`: styles grouped
    by their type, one group per distinct type.  `GroupByType` builds the
    groups the way lodash does, one style at a time, appending to the group
    of its key or opening a new group at the end; its contract relates the
    result to an independent description: the keys are the distinct types
    in order of first occurrence, and each group holds exactly the styles of
    its type, in input order. */
module Grouping {
  import opened Normalizer

  datatype Group = Group(key: string, members: seq<StyleRecord>)

  function Types(styles: seq<StyleRecord>): (r: seq<string>)
    ensures |r| == |styles|
    ensures forall i :: 0 <= i < |styles| ==> r[i] == styles[i].styleType
  {
    seq(|styles|, i requires 0 <= i < |styles| => styles[i].styleType)
  }

  function Keys(gs: seq<Group>): (r: seq<string>)
    ensures |r| == |gs|
    ensures forall i :: 0 <= i < |gs| ==> r[i] == gs[i].key
  {
    seq(|gs|, i requires 0 <= i < |gs| => gs[i].key)
  }

  predicate NoDuplicates(ts: seq<string>) {
    forall i, j :: 0 <= i < j < |ts| ==> ts[i] != ts[j]
  }

  /** The distinct elements of `ts` in order of first occurrence: an element
      seen before adds nothing, a new one goes to the end. */
  function Distinct(ts: seq<string>): (r: seq<string>)
    ensures forall t :: t in r <==> t in ts
    ensures NoDuplicates(r)
  {
    if |ts| == 0 then []
    else
      var p := Distinct(ts[..|ts| - 1]);
      var t := ts[|ts| - 1];
      assert forall x :: x in ts <==> x in ts[..|ts| - 1] || x == t by {
        assert ts == ts[..|ts| - 1] + [t];
      }
      if t in p then p else p + [t]
  }

  /** Where `t` first occurs in `ts`. */
  function FirstIndex(ts: seq<string>, t: string): (k: nat)
    requires t in ts
    ensures k < |ts| && ts[k] == t && t !in ts[..k]
  {
    if ts[0] == t then 0
    else
      var k := FirstIndex(ts[1..], t);
      assert ts[..k + 1] == [ts[0]] + ts[1..][..k];
      k + 1
  }

  lemma FirstIndexUnique(ts: seq<string>, t: string, k: nat)
    requires k < |ts| && ts[k] == t && t !in ts[..k]
    ensures FirstIndex(ts, t) == k
  {
  }

  /** The elements of `r` are ordered by where they first occur in `ts`. */
  predicate InFirstOccurrenceOrder(ts: seq<string>, r: seq<string>) {
    forall i, j :: 0 <= i < j < |r| && r[i] in ts && r[j] in ts ==> FirstIndex(ts, r[i]) < FirstIndex(ts, r[j])
  }

  /** The keys `Distinct` produces are ordered by where they first occur. */
  lemma {:induction false} DistinctInFirstOccurrenceOrder(ts: seq<string>)
    ensures InFirstOccurrenceOrder(ts, Distinct(ts))
  {
    if |ts| > 0 {
      var pre := ts[..|ts| - 1];
      var t := ts[|ts| - 1];
      var p := Distinct(pre);
      DistinctInFirstOccurrenceOrder(pre);
      assert ts == pre + [t];
      forall x | x in pre ensures FirstIndex(ts, x) == FirstIndex(pre, x) {
        var k := FirstIndex(pre, x);
        assert ts[..k] == pre[..k];
        FirstIndexUnique(ts, x, k);
      }
      var r := Distinct(ts);
      if t !in p {
        assert t !in pre;
        assert ts[..|ts| - 1] == pre;
        FirstIndexUnique(ts, t, |ts| - 1);
        forall i, j | 0 <= i < j < |r| && r[i] in ts && r[j] in ts
          ensures FirstIndex(ts, r[i]) < FirstIndex(ts, r[j])
        {
          assert r[i] == p[i] && r[i] in pre;
          if j < |p| {
            assert r[j] == p[j] && r[j] in pre;
          } else {
            assert r[j] == t;
          }
        }
      } else {
        assert r == p;
        forall i, j | 0 <= i < j < |r| && r[i] in ts && r[j] in ts
          ensures FirstIndex(ts, r[i]) < FirstIndex(ts, r[j])
        {
          assert r[i] in pre && r[j] in pre;
        }
      }
    }
  }

  /** The styles of type `t`, in input order. */
  function MembersOf(styles: seq<StyleRecord>, t: string): (r: seq<StyleRecord>)
    ensures |r| <= |styles|
    ensures forall s :: s in r <==> s in styles && s.styleType == t
    ensures t !in Types(styles) ==> r == []
  {
    if |styles| == 0 then []
    else
      var s := styles[|styles| - 1];
      assert styles == styles[..|styles| - 1] + [s];
      assert Types(styles) == Types(styles[..|styles| - 1]) + [s.styleType];
      MembersOf(styles[..|styles| - 1], t) + (if s.styleType == t then [s] else [])
  }

  /** One step of lodash's accumulation: push `s` onto the group of its key,
      or open a new group for it at the end. */
  function AddToGroups(gs: seq<Group>, s: StyleRecord): (r: seq<Group>)
    requires NoDuplicates(Keys(gs))
    ensures s.styleType in Keys(gs) ==> Keys(r) == Keys(gs)
    ensures s.styleType !in Keys(gs) ==> Keys(r) == Keys(gs) + [s.styleType]
    ensures s.styleType !in Keys(gs) ==> r[|gs|] == Group(s.styleType, [s])
    ensures forall i :: 0 <= i < |gs| ==>
              r[i].members == gs[i].members + (if gs[i].key == s.styleType then [s] else [])
  {
    if |gs| == 0 then [Group(s.styleType, [s])]
    else if gs[0].key == s.styleType then [Group(gs[0].key, gs[0].members + [s])] + gs[1..]
    else
      assert Keys(gs) == [gs[0].key] + Keys(gs[1..]);
      [gs[0]] + AddToGroups(gs[1..], s)
  }

  /** `Object.entries(_.groupBy(styles, 'type'))`: the groups in key order,
      the keys being the distinct types in order of first occurrence and each
      group holding exactly the styles of its type, in input order. */
  function GroupByType(styles: seq<StyleRecord>): (gs: seq<Group>)
    ensures Keys(gs) == Distinct(Types(styles))
    ensures forall i :: 0 <= i < |gs| ==> gs[i].members == MembersOf(styles, gs[i].key)
  {
    if |styles| == 0 then []
    else
      var pre := styles[..|styles| - 1];
      var s := styles[|styles| - 1];
      var prev := GroupByType(pre);
      assert Types(styles)[..|styles| - 1] == Types(pre);
      var gs := AddToGroups(prev, s);
      assert forall i :: 0 <= i < |gs| ==> gs[i].members == MembersOf(styles, gs[i].key) by {
        forall i | 0 <= i < |gs| ensures gs[i].members == MembersOf(styles, gs[i].key) {
          if i == |prev| {
            assert s.styleType !in Types(pre);
            assert MembersOf(pre, s.styleType) == [];
          }
        }
      }
      gs
  }

  lemma GroupByTypeStep(styles: seq<StyleRecord>)
    requires |styles| > 0
    ensures NoDuplicates(Keys(GroupByType(styles[..|styles| - 1])))
    ensures GroupByType(styles) == AddToGroups(GroupByType(styles[..|styles| - 1]), styles[|styles| - 1])
  {
  }

  /** The concatenation of the groups' members. */
  function Flatten(gs: seq<Group>): seq<StyleRecord> {
    if |gs| == 0 then [] else gs[0].members + Flatten(gs[1..])
  }

  lemma {:induction false} FlattenAddToGroups(gs: seq<Group>, s: StyleRecord)
    requires NoDuplicates(Keys(gs))
    ensures multiset(Flatten(AddToGroups(gs, s))) == multiset(Flatten(gs)) + multiset{s}
  {
    if |gs| > 0 && gs[0].key != s.styleType {
      assert Keys(gs[1..]) == Keys(gs)[1..];
      FlattenAddToGroups(gs[1..], s);
      assert ([gs[0]] + AddToGroups(gs[1..], s))[1..] == AddToGroups(gs[1..], s);
    } else if |gs| > 0 {
      assert ([Group(gs[0].key, gs[0].members + [s])] + gs[1..])[1..] == gs[1..];
    }
  }

  /** Grouping loses and duplicates nothing: the groups' members, taken
      together, are a permutation of the styles. */
  lemma {:induction false} GroupingIsPermutation(styles: seq<StyleRecord>)
    ensures multiset(Flatten(GroupByType(styles))) == multiset(styles)
  {
    if |styles| > 0 {
      var pre := styles[..|styles| - 1];
      var s := styles[|styles| - 1];
      var prev := GroupByType(pre);
      GroupingIsPermutation(pre);
      GroupByTypeStep(styles);
      FlattenAddToGroups(prev, s);
      calc {
        multiset(Flatten(GroupByType(styles)));
        multiset(Flatten(AddToGroups(prev, s)));
        multiset(Flatten(prev)) + multiset{s};
        multiset(pre) + multiset{s};
        { MultisetSnoc(styles); }
        multiset(styles);
      }
    }
  }

  lemma MultisetSnoc<T>(xs: seq<T>)
    requires |xs| > 0
    ensures multiset(xs) == multiset(xs[..|xs| - 1]) + multiset{xs[|xs| - 1]}
  {
    assert xs == xs[..|xs| - 1] + [xs[|xs| - 1]];
  }

  /** `s` is a member of `g`, the group keyed by the type of `s`. */
  predicate InGroup(g: Group, s: StyleRecord) {
    g.key == s.styleType && s in g.members
  }

  /** Every style lies in exactly one group, the one keyed by its type. */
  lemma EachStyleInOneGroup(styles: seq<StyleRecord>, s: StyleRecord)
    requires s in styles
    ensures exists i :: 0 <= i < |GroupByType(styles)| && InGroup(GroupByType(styles)[i], s)
    ensures forall g :: g in GroupByType(styles) && s in g.members ==> g.key == s.styleType
  {
    var gs := GroupByType(styles);
    assert s.styleType in Types(styles);
    assert s.styleType in Keys(gs);
    var i :| 0 <= i < |gs| && Keys(gs)[i] == s.styleType;
    assert gs[i].members == MembersOf(styles, gs[i].key);
    assert gs[i].key == s.styleType;
    assert s in MembersOf(styles, s.styleType);
    assert InGroup(gs[i], s);
  }

  /** Every group's members carry its key as their type, and no group is
      empty. */
  lemma GroupsAreUniform(styles: seq<StyleRecord>)
    ensures var gs := GroupByType(styles);
            forall i :: 0 <= i < |gs| ==>
              |gs[i].members| > 0 && forall s :: s in gs[i].members ==> s.styleType == gs[i].key
  {
    var gs := GroupByType(styles);
    forall i | 0 <= i < |gs|
      ensures |gs[i].members| > 0
    {
      assert gs[i].key in Distinct(Types(styles));
      var k :| 0 <= k < |styles| && Types(styles)[k] == gs[i].key;
      assert styles[k] in gs[i].members;
    }
  }
}
