/** Diagnosis findings merged into prioritised recommendations. */
module Recommendations {
  import opened Prelude
  import opened Text

  datatype Severity = Info | Warning | Critical

  datatype Priority = Low | Medium | High | Urgent

  datatype Finding = Finding(severity: Severity, category: string, title: string, description: string, recommendation: string)

  /** What the text of a group says; the wording itself is a parameter. */
  datatype Wording = Wording(category: string, title: string, description: string, action: string, impact: string)

  datatype Group = Group(key: string, titles: seq<string>)

  datatype Recommendation = Recommendation(
    id: string, priority: Priority, category: string, title: string, description: string, action: string, impact: string)

  const GROUPS := [
    Group("connectivity", ["Router is offline"]),
    Group("cpu", ["High CPU utilization", "Critical CPU utilization", "High load average", "Critically high load"]),
    Group("memory", ["High memory utilization", "Critical memory utilization"]),
    Group("storage", ["High storage utilization", "Critical storage utilization"]),
    Group("wan", ["Missing WAN interface"]),
    Group("wifi", ["Missing WiFi"]),
    Group("data-quality", ["Unknown router values"])
  ]

  function PriorityOf(severity: Severity): Priority {
    match severity
    case Critical => Urgent
    case Warning => High
    case Info => Medium
  }

  function Weight(priority: Priority): nat {
    match priority
    case Low => 1
    case Medium => 2
    case High => 3
    case Urgent => 4
  }

  function Rank(severity: Severity): nat {
    match severity
    case Info => 1
    case Warning => 2
    case Critical => 3
  }

  // ---------------------------------------------------------------- grouping

  /** The first group that lists the title. */
  function GroupFor(title: string, groups: seq<Group>): (found: Option<Group>)
    ensures found.Some? ==> found.value in groups && title in found.value.titles
    ensures found.None? ==> forall g :: g in groups ==> title !in g.titles
  {
    if groups == [] then None
    else if title in groups[0].titles then Some(groups[0])
    else GroupFor(title, groups[1..])
  }

  function Members(home: Option<Group>, groups: seq<Group>, findings: seq<Finding>): seq<Finding>
    decreases |findings|
  {
    if findings == [] then []
    else
      var last := findings[|findings| - 1];
      Members(home, groups, findings[..|findings| - 1]) + if GroupFor(last.title, groups) == home then [last] else []
  }

  function Keys(groups: seq<Group>): set<string> {
    set g | g in groups :: g.key
  }

  predicate DistinctKeys(groups: seq<Group>) {
    forall i, j :: 0 <= i < j < |groups| ==> groups[i].key != groups[j].key
  }

  predicate DisjointTitles(groups: seq<Group>) {
    forall i, j, title :: 0 <= i < j < |groups| && title in groups[i].titles ==> title !in groups[j].titles
  }

  // ---------------------------------------------------------------- recommendations

  /** `max` by rank: the first of the most severe. */
  function Worst(findings: seq<Finding>): (worst: Severity)
    requires findings != []
    ensures exists f :: f in findings && f.severity == worst
    ensures forall f :: f in findings ==> Rank(f.severity) <= Rank(worst)
  {
    var last := findings[|findings| - 1];
    if |findings| == 1 then last.severity
    else
      var worst := Worst(findings[..|findings| - 1]);
      if Rank(last.severity) > Rank(worst) then last.severity else worst
  }

  function Titles(findings: seq<Finding>): string {
    if findings == [] then ""
    else if |findings| == 1 then findings[0].title
    else findings[0].title + ", " + Titles(findings[1..])
  }

  function Build(group: Group, findings: seq<Finding>, wording: string -> Wording): Recommendation
    requires findings != []
  {
    var w := wording(group.key);
    Recommendation(
      "rec-" + group.key, PriorityOf(Worst(findings)), w.category, w.title,
      w.description + " Affected findings: " + Titles(findings) + ".", w.action, w.impact)
  }

  function Generic(finding: Finding): Recommendation {
    Recommendation(
      "rec-" + Slug(finding.title), PriorityOf(finding.severity), finding.category, finding.title,
      finding.description, finding.recommendation, "Resolves the identified concern.")
  }

  predicate IsAlnum(c: char) {
    'a' <= c <= 'z' || 'A' <= c <= 'Z' || '0' <= c <= '9'
  }

  function StripDashes(s: string): string
    decreases |s|
  {
    if s != "" && s[0] == '-' then StripDashes(s[1..])
    else if s != "" && s[|s| - 1] == '-' then StripDashes(s[..|s| - 1])
    else s
  }

  function Dashed(title: string): string {
    seq(|title|, i requires 0 <= i < |title| => if IsAlnum(LowerAscii(title[i])) then LowerAscii(title[i]) else '-')
  }

  function Slug(title: string): string {
    StripDashes(Dashed(title))
  }

  /** A recommendation with the findings it stands for. */
  datatype Item = Item(rec: Recommendation, absorbed: seq<Finding>)

  function GroupItems(some: seq<Group>, groups: seq<Group>, findings: seq<Finding>, wording: string -> Wording): seq<Item>
  {
    if some == [] then []
    else
      var members := Members(Some(some[0]), groups, findings);
      (if members == [] then [] else [Item(Build(some[0], members, wording), members)])
      + GroupItems(some[1..], groups, findings, wording)
  }

  function GenericItems(unmatched: seq<Finding>): seq<Item> {
    seq(|unmatched|, i requires 0 <= i < |unmatched| => Item(Generic(unmatched[i]), [unmatched[i]]))
  }

  function Items(groups: seq<Group>, findings: seq<Finding>, wording: string -> Wording): seq<Item> {
    GroupItems(groups, groups, findings, wording) + GenericItems(Members(None, groups, findings))
  }

  function Recs(items: seq<Item>): seq<Recommendation> {
    seq(|items|, i requires 0 <= i < |items| => items[i].rec)
  }

  function Parts(items: seq<Item>): seq<seq<Finding>> {
    seq(|items|, i requires 0 <= i < |items| => items[i].absorbed)
  }

  function Absorbed(items: seq<Item>): seq<Finding> {
    Flatten(Parts(items))
  }

  // ---------------------------------------------------------------- each finding once

  lemma AbsorbedConcat(xs: seq<Item>, ys: seq<Item>)
    ensures Absorbed(xs + ys) == Absorbed(xs) + Absorbed(ys)
  {
    FlattenConcat(Parts(xs), Parts(ys));
    assert Parts(xs + ys) == Parts(xs) + Parts(ys);
  }

  lemma {:induction false} GenericAbsorbs(unmatched: seq<Finding>)
    ensures Absorbed(GenericItems(unmatched)) == unmatched
  {
    if unmatched != [] {
      GenericAbsorbs(unmatched[1..]);
      var items := GenericItems(unmatched);
      assert Parts(items)[1..] == Parts(GenericItems(unmatched[1..]));
    }
  }

  /** How often a finding is absorbed by the groups of a list: as often as it was found if its
      group is listed, else never. */
  lemma {:induction false} GroupsAbsorb(some: seq<Group>, groups: seq<Group>, findings: seq<Finding>,
                                        wording: string -> Wording, f: Finding)
    requires DistinctKeys(some)
    ensures multiset(Absorbed(GroupItems(some, groups, findings, wording)))[f]
         == if GroupFor(f.title, groups).Some? && GroupFor(f.title, groups).value in some then multiset(findings)[f] else 0
  {
    hide Members, GroupFor, Build;
    if some != [] {
      GroupsAbsorb(some[1..], groups, findings, wording, f);
      MembersCount(Some(some[0]), groups, findings, f);
      var members := Members(Some(some[0]), groups, findings);
      var head := if members == [] then [] else [Item(Build(some[0], members, wording), members)];
      AbsorbedConcat(head, GroupItems(some[1..], groups, findings, wording));
      assert Absorbed(head) == members by {
        FlattenOne(members);
        assert members != [] ==> Parts(head) == [members];
      }
      assert some[0] !in some[1..];
    }
  }

  lemma NoMembers(groups: seq<Group>)
    ensures forall home :: Members(home, groups, []) == []
  {}

  lemma MembersSnoc(home: Option<Group>, groups: seq<Group>, before: seq<Finding>, last: Finding)
    ensures Members(home, groups, before + [last]) ==
            Members(home, groups, before) + if GroupFor(last.title, groups) == home then [last] else []
  {
    hide GroupFor;
    assert (before + [last])[..|before|] == before;
  }

  lemma {:induction false} MembersCount(home: Option<Group>, groups: seq<Group>, findings: seq<Finding>, f: Finding)
    ensures multiset(Members(home, groups, findings))[f] == if GroupFor(f.title, groups) == home then multiset(findings)[f] else 0
    decreases |findings|
  {
    if findings != [] {
      hide GroupFor, Members;
      var before, last := findings[..|findings| - 1], findings[|findings| - 1];
      assert findings == before + [last];
      MembersCount(home, groups, before, f);
      MembersSnoc(home, groups, before, last);
    }
  }

  /** Every finding is absorbed by exactly one recommendation, as often as it was reported. */
  lemma EachFindingIsAbsorbedOnce(groups: seq<Group>, findings: seq<Finding>, wording: string -> Wording)
    requires DistinctKeys(groups)
    ensures multiset(Absorbed(Items(groups, findings, wording))) == multiset(findings)
  {
    var unmatched := Members(None, groups, findings);
    AbsorbedConcat(GroupItems(groups, groups, findings, wording), GenericItems(unmatched));
    GenericAbsorbs(unmatched);
    forall f: Finding
      ensures multiset(Absorbed(Items(groups, findings, wording)))[f] == multiset(findings)[f]
    {
      GroupsAbsorb(groups, groups, findings, wording, f);
      MembersCount(None, groups, findings, f);
    }
  }

  /** The priority of every recommendation is that of the most severe finding it absorbs. */
  predicate PriorityOfWorst(item: Item) {
    && item.absorbed != []
    && (exists f :: f in item.absorbed && item.rec.priority == PriorityOf(f.severity))
    && forall f :: f in item.absorbed ==> Weight(PriorityOf(f.severity)) <= Weight(item.rec.priority)
  }

  lemma {:induction false} GroupPriorities(some: seq<Group>, groups: seq<Group>, findings: seq<Finding>, wording: string -> Wording)
    ensures forall item :: item in GroupItems(some, groups, findings, wording) ==> PriorityOfWorst(item)
  {
    if some != [] {
      GroupPriorities(some[1..], groups, findings, wording);
      var members := Members(Some(some[0]), groups, findings);
      if members != [] {
        var worst := Worst(members);
        var f :| f in members && f.severity == worst;
        assert PriorityOfWorst(Item(Build(some[0], members, wording), members));
      }
    }
  }

  lemma PriorityIsThatOfTheWorst(groups: seq<Group>, findings: seq<Finding>, wording: string -> Wording)
    ensures forall item :: item in Items(groups, findings, wording) ==> PriorityOfWorst(item)
  {
    GroupPriorities(groups, groups, findings, wording);
    forall item | item in GenericItems(Members(None, groups, findings))
      ensures PriorityOfWorst(item)
    {
      assert item.absorbed[0] in item.absorbed;
    }
  }

  // ---------------------------------------------------------------- what an item says

  /** The titles one after the other, each but the first after a comma. */
  function Listed(findings: seq<Finding>): string
    decreases |findings|
  {
    if findings == [] then ""
    else if |findings| == 1 then findings[0].title
    else Listed(findings[..|findings| - 1]) + ", " + findings[|findings| - 1].title
  }

  lemma {:induction false} TitlesAreListed(findings: seq<Finding>)
    ensures Titles(findings) == Listed(findings)
    decreases |findings|
  {
    if |findings| > 2 {
      var n := |findings| - 1;
      var head, middle, last := findings[0], findings[1..n], findings[n];
      TitlesAreListed(findings[1..]);
      TitlesAreListed(findings[..n]);
      TitlesAreListed(middle);
      assert findings[1..][..n - 1] == middle && findings[..n][1..] == middle;
      calc {
        Titles(findings);
        head.title + ", " + (Listed(middle) + ", " + last.title);
        (head.title + ", " + Listed(middle)) + ", " + last.title;
        Listed(findings);
      }
    } else if |findings| == 2 {
      assert Titles(findings[1..]) == findings[1].title && Listed(findings[..1]) == findings[0].title;
    }
  }

  /** No group before place i lists the title. */
  predicate FirstListedIn(groups: seq<Group>, i: nat, title: string) {
    i < |groups| && title in groups[i].titles && forall j :: 0 <= j < i ==> title !in groups[j].titles
  }

  /** Several findings merged under the wording of their group. */
  predicate MergedUnder(item: Item, groups: seq<Group>, i: nat, findings: seq<Finding>, wording: string -> Wording) {
    && i < |groups|
    && (forall f :: f in item.absorbed ==> f in findings && FirstListedIn(groups, i, f.title))
    && var w := wording(groups[i].key);
       && item.rec.id == "rec-" + groups[i].key
       && item.rec.category == w.category
       && item.rec.title == w.title
       && item.rec.description == w.description + " Affected findings: " + Listed(item.absorbed) + "."
       && item.rec.action == w.action
       && item.rec.impact == w.impact
  }

  /** One finding that no group lists, in its own words. */
  ghost predicate PassedOn(item: Item, groups: seq<Group>, f: Finding) {
    && item.absorbed == [f]
    && (forall g :: g in groups ==> f.title !in g.titles)
    && |item.rec.id| >= 4 && item.rec.id[..4] == "rec-" && IsSlug(f.title, item.rec.id[4..])
    && item.rec.category == f.category
    && item.rec.title == f.title
    && item.rec.description == f.description
    && item.rec.action == f.recommendation
    && item.rec.impact == "Resolves the identified concern."
  }

  /** The letters and digits of a title, in lower case, with a dash for any other character, and
      without dashes at either end. */
  ghost predicate IsSlug(title: string, slug: string) {
    && (slug != "" ==> slug[0] != '-' && slug[|slug| - 1] != '-')
    && exists from: nat :: SlugFrom(title, slug, from)
  }

  /** The slug spells the title from place `from` on; around it there is nothing to spell. */
  predicate SlugFrom(title: string, slug: string, from: nat) {
    && from + |slug| <= |title|
    && (forall i: nat :: i < |slug| ==> SlugChar(title[from + i], slug[i]))
    && (forall i: nat :: i < |title| && !(from <= i < from + |slug|) ==> SlugChar(title[i], '-'))
  }

  predicate SlugChar(ch: char, shown: char) {
    if 'A' <= ch <= 'Z' then shown == ch + 32 as char
    else if 'a' <= ch <= 'z' || '0' <= ch <= '9' then shown == ch
    else shown == '-'
  }

  /** Stripping leaves a stretch of the text and takes only dashes away. */
  lemma {:induction false} StripDashesLeavesAStretch(s: string) returns (from: nat)
    ensures var r := StripDashes(s);
      && from + |r| <= |s| && r == s[from..from + |r|]
      && (forall i :: 0 <= i < |s| && !(from <= i < from + |r|) ==> s[i] == '-')
      && (r != "" ==> r[0] != '-' && r[|r| - 1] != '-')
    decreases |s|
  {
    if s != "" && s[0] == '-' {
      from := StripDashesLeavesAStretch(s[1..]);
      assert forall i :: 1 <= i < |s| ==> s[i] == s[1..][i - 1];
      from := from + 1;
    } else if s != "" && s[|s| - 1] == '-' {
      from := StripDashesLeavesAStretch(s[..|s| - 1]);
      assert forall i :: 0 <= i < |s| - 1 ==> s[i] == s[..|s| - 1][i];
    } else {
      from := 0;
    }
  }

  lemma SlugIsSlug(title: string)
    ensures IsSlug(title, Slug(title))
  {
    hide StripDashes;
    var dashed := Dashed(title);
    assert Slug(title) == StripDashes(dashed);
    var from := StripDashesLeavesAStretch(dashed);
    forall i: nat | i < |title|
      ensures SlugChar(title[i], dashed[i])
    {}
    assert SlugFrom(title, Slug(title), from);
  }

  lemma {:induction false} GroupForIsFirst(title: string, groups: seq<Group>) returns (i: nat)
    requires GroupFor(title, groups).Some?
    ensures FirstListedIn(groups, i, title) && groups[i] == GroupFor(title, groups).value
  {
    if title in groups[0].titles {
      i := 0;
    } else {
      i := GroupForIsFirst(title, groups[1..]);
      i := i + 1;
    }
  }

  lemma {:induction false} MembersAreFound(home: Option<Group>, groups: seq<Group>, findings: seq<Finding>, f: Finding)
    requires f in Members(home, groups, findings)
    ensures f in findings && GroupFor(f.title, groups) == home
    decreases |findings|
  {
    hide GroupFor;
    var n := |findings| - 1;
    if f in Members(home, groups, findings[..n]) {
      MembersAreFound(home, groups, findings[..n], f);
    }
  }

  lemma {:induction false} GroupItemsAreMerged(from: nat, groups: seq<Group>, findings: seq<Finding>, wording: string -> Wording, item: Item)
    requires DistinctKeys(groups) && from <= |groups|
    requires item in GroupItems(groups[from..], groups, findings, wording)
    ensures exists i: nat :: MergedUnder(item, groups, i, findings, wording)
    decreases |groups| - from
  {
    hide Members, GroupFor, Titles, Listed;
    var members := Members(Some(groups[from]), groups, findings);
    assert groups[from..][1..] == groups[from + 1..];
    if members != [] && item == Item(Build(groups[from], members, wording), members) {
      TitlesAreListed(members);
      forall f | f in members
        ensures f in findings && FirstListedIn(groups, from, f.title)
      {
        MembersAreFound(Some(groups[from]), groups, findings, f);
        var i := GroupForIsFirst(f.title, groups);
        assert i == from;
      }
      assert MergedUnder(item, groups, from, findings, wording);
    } else {
      GroupItemsAreMerged(from + 1, groups, findings, wording, item);
    }
  }

  /** Every recommendation either merges findings of one group, the first that lists their titles, and
      speaks with that group's words and their titles, or passes on one finding that no group
      lists in the finding's own words. */
  lemma ItemsSpeakForTheirFindings(groups: seq<Group>, findings: seq<Finding>, wording: string -> Wording, item: Item)
    requires DistinctKeys(groups) && item in Items(groups, findings, wording)
    ensures (exists i: nat :: MergedUnder(item, groups, i, findings, wording))
         || (exists f :: f in findings && PassedOn(item, groups, f))
  {
    hide Members, GroupItems, MergedUnder, IsSlug, Slug;
    if item in GroupItems(groups, groups, findings, wording) {
      assert groups[0..] == groups;
      GroupItemsAreMerged(0, groups, findings, wording, item);
    } else {
      var unmatched := Members(None, groups, findings);
      var k :| 0 <= k < |unmatched| && item == Item(Generic(unmatched[k]), [unmatched[k]]);
      MembersAreFound(None, groups, findings, unmatched[k]);
      SlugIsSlug(unmatched[k].title);
      assert PassedOn(item, groups, unmatched[k]);
    }
  }

  /** The priority of a recommendation tells what it absorbs: urgent exactly with a critical finding,
      high exactly with a warning but nothing critical, medium exactly with notes alone. */
  lemma PriorityTellsSeverities(groups: seq<Group>, findings: seq<Finding>, wording: string -> Wording, item: Item)
    requires item in Items(groups, findings, wording)
    ensures var some := (severity: Severity) => exists f :: f in item.absorbed && f.severity == severity;
      && item.rec.priority == if some(Critical) then Urgent else if some(Warning) then High else Medium
  {
    hide Items;
    PriorityIsThatOfTheWorst(groups, findings, wording);
    assert PriorityOfWorst(item);
  }

  // ---------------------------------------------------------------- the order

  /** Text order by character. */
  predicate TextLeq(a: string, b: string) {
    a == "" || (b != "" && (a[0] < b[0] || (a[0] == b[0] && TextLeq(a[1..], b[1..]))))
  }

  lemma {:induction false} TextOrder(a: string, b: string, c: string)
    ensures TextLeq(a, b) || TextLeq(b, a)
    ensures TextLeq(a, b) && TextLeq(b, a) ==> a == b
    ensures TextLeq(a, b) && TextLeq(b, c) ==> TextLeq(a, c)
  {
    if a != "" && b != "" {
      TextOrder(a[1..], b[1..], if c == "" then "" else c[1..]);
      assert a == [a[0]] + a[1..] && b == [b[0]] + b[1..];
    }
  }

  /** The sort key: heavier first, then by id. */
  predicate Leq(x: Recommendation, y: Recommendation) {
    || Weight(x.priority) > Weight(y.priority)
    || (x.priority == y.priority && TextLeq(x.id, y.id))
  }

  predicate SameKey(x: Recommendation, y: Recommendation) {
    x.priority == y.priority && x.id == y.id
  }

  lemma LeqOrder(x: Recommendation, y: Recommendation, z: Recommendation)
    ensures Leq(x, y) || Leq(y, x)
    ensures Leq(x, y) && Leq(y, x) ==> SameKey(x, y)
    ensures Leq(x, y) && Leq(y, z) ==> Leq(x, z)
  {
    TextOrder(x.id, y.id, z.id);
  }

  predicate Ordered(recs: seq<Recommendation>) {
    forall i, j :: 0 <= i < j < |recs| ==> Leq(recs[i], recs[j])
  }

  function Insert(recs: seq<Recommendation>, x: Recommendation): seq<Recommendation>
    decreases |recs|
  {
    if recs == [] then [x]
    else
      var last := recs[|recs| - 1];
      if Leq(last, x) then recs + [x] else Insert(recs[..|recs| - 1], x) + [last]
  }

  /** Python's stable sort, as insertion from the left. */
  function Sort(recs: seq<Recommendation>): seq<Recommendation>
    decreases |recs|
  {
    if recs == [] then [] else Insert(Sort(recs[..|recs| - 1]), recs[|recs| - 1])
  }

  /** The recommendations with the key of `k`, in order. */
  function Keyed(recs: seq<Recommendation>, k: Recommendation): seq<Recommendation>
    decreases |recs|
  {
    if recs == [] then []
    else
      var last := recs[|recs| - 1];
      Keyed(recs[..|recs| - 1], k) + if SameKey(last, k) then [last] else []
  }

  lemma {:induction false} InsertAdds(recs: seq<Recommendation>, x: Recommendation)
    ensures multiset(Insert(recs, x)) == multiset(recs) + multiset{x}
    decreases |recs|
  {
    hide Leq;
    if recs != [] {
      var before, last := recs[..|recs| - 1], recs[|recs| - 1];
      assert recs == before + [last];
      InsertAdds(before, x);
    }
  }

  lemma {:induction false} InsertOrders(recs: seq<Recommendation>, x: Recommendation)
    requires Ordered(recs)
    ensures Ordered(Insert(recs, x))
    decreases |recs|
  {
    hide Leq;
    if recs == [] {
    } else {
      var before, last := recs[..|recs| - 1], recs[|recs| - 1];
      LeqOrder(last, x, x);
      if Leq(last, x) {
        forall i | 0 <= i < |recs|
          ensures Leq(recs[i], x)
        {
          LeqOrder(recs[i], last, x);
        }
      } else {
        InsertOrders(before, x);
        InsertAdds(before, x);
        var shorter := Insert(before, x);
        forall i | 0 <= i < |shorter|
          ensures Leq(shorter[i], last)
        {
          assert shorter[i] in multiset(shorter);
          assert shorter[i] == x || shorter[i] in before;
        }
      }
    }
  }

  lemma KeyedSnoc(recs: seq<Recommendation>, x: Recommendation, k: Recommendation)
    ensures Keyed(recs + [x], k) == Keyed(recs, k) + if SameKey(x, k) then [x] else []
  {
    assert (recs + [x])[..|recs|] == recs;
  }

  lemma {:induction false} InsertIsStable(recs: seq<Recommendation>, x: Recommendation, k: Recommendation)
    ensures Keyed(Insert(recs, x), k) == Keyed(recs, k) + if SameKey(x, k) then [x] else []
    decreases |recs|
  {
    hide Leq;
    if recs == [] {
      KeyedSnoc([], x, k);
      assert [] + [x] == [x];
    } else {
      var before, last := recs[..|recs| - 1], recs[|recs| - 1];
      if Leq(last, x) {
        KeyedSnoc(recs, x, k);
      } else {
        InsertIsStable(before, x, k);
        KeyedSnoc(Insert(before, x), last, k);
        EqualKeysAreLeq(last, x);
      }
    }
  }

  lemma EqualKeysAreLeq(x: Recommendation, y: Recommendation)
    ensures SameKey(x, y) ==> Leq(x, y)
  {
    TextOrder(x.id, x.id, x.id);
  }

  /** Sorting only reorders, puts heavier recommendations first and equal weights by id, and
      keeps the order of recommendations with equal keys. */
  lemma {:induction false} SortIsTheStableSort(recs: seq<Recommendation>)
    ensures multiset(Sort(recs)) == multiset(recs)
    ensures Ordered(Sort(recs))
    ensures forall k :: Keyed(Sort(recs), k) == Keyed(recs, k)
    decreases |recs|
  {
    hide Leq, Insert;
    if recs != [] {
      var before, last := recs[..|recs| - 1], recs[|recs| - 1];
      SortIsTheStableSort(before);
      InsertAdds(Sort(before), last);
      InsertOrders(Sort(before), last);
      forall k
        ensures Keyed(Sort(recs), k) == Keyed(recs, k)
      {
        InsertIsStable(Sort(before), last, k);
      }
      assert recs == before + [last];
    }
  }

  // ---------------------------------------------------------------- the engine

  function Report(groups: seq<Group>, findings: seq<Finding>, wording: string -> Wording): seq<Recommendation> {
    Sort(Recs(Items(groups, findings, wording)))
  }

  /** The groups that have findings, in the order of the table. */
  method BuildGroups(groups: seq<Group>, grouped: map<string, seq<Finding>>, wording: string -> Wording, ghost findings: seq<Finding>)
    returns (built: seq<Recommendation>)
    requires forall g :: g in groups ==> g.key in grouped && grouped[g.key] == Members(Some(g), groups, findings)
    ensures built == Recs(GroupItems(groups, groups, findings, wording))
  {
    hide Members, Build;
    built := [];
    assert groups[0..] == groups;
    for i := 0 to |groups|
      invariant built + Recs(GroupItems(groups[i..], groups, findings, wording))
             == Recs(GroupItems(groups, groups, findings, wording))
    {
      var g, rest := groups[i], groups[i + 1..];
      assert groups[i..][1..] == rest;
      var members := grouped[g.key];
      RecsOfGroup(groups[i..], groups, findings, wording);
      if members != [] {
        built := built + [Build(g, members, wording)];
      }
    }
  }

  lemma RecsOfGroup(some: seq<Group>, groups: seq<Group>, findings: seq<Finding>, wording: string -> Wording)
    requires some != []
    ensures Recs(GroupItems(some, groups, findings, wording))
         == (var members := Members(Some(some[0]), groups, findings);
             if members == [] then [] else [Build(some[0], members, wording)])
            + Recs(GroupItems(some[1..], groups, findings, wording))
  {
    hide Members, Build;
  }

  /** The loop over the findings. */
  method GroupFindings(groups: seq<Group>, findings: seq<Finding>)
    returns (grouped: map<string, seq<Finding>>, unmatched: seq<Finding>)
    requires DistinctKeys(groups)
    ensures forall g :: g in groups ==> g.key in grouped && grouped[g.key] == Members(Some(g), groups, findings)
    ensures unmatched == Members(None, groups, findings)
  {
    hide GroupFor, Members;
    NoMembers(groups);
    grouped, unmatched := map key | key in Keys(groups) :: [], [];
    for i := 0 to |findings|
      invariant forall g :: g in groups ==> g.key in grouped && grouped[g.key] == Members(Some(g), groups, findings[..i])
      invariant unmatched == Members(None, groups, findings[..i])
    {
      assert findings[..i + 1] == findings[..i] + [findings[i]];
      forall home
        ensures Members(home, groups, findings[..i + 1]) ==
                Members(home, groups, findings[..i]) + if GroupFor(findings[i].title, groups) == home then [findings[i]] else []
      {
        MembersSnoc(home, groups, findings[..i], findings[i]);
      }
      var found := GroupFor(findings[i].title, groups);
      if found.None? {
        unmatched := unmatched + [findings[i]];
      } else {
        grouped := grouped[found.value.key := grouped[found.value.key] + [findings[i]]];
      }
    }
    assert findings[..|findings|] == findings;
  }

  method Generate(groups: seq<Group>, findings: seq<Finding>, wording: string -> Wording)
    returns (recommendations: seq<Recommendation>)
    requires DistinctKeys(groups)
    ensures recommendations == Report(groups, findings, wording)
  {
    hide Sort, GroupFor, GroupItems, Members, Build;
    var grouped, unmatched := GroupFindings(groups, findings);
    var built := BuildGroups(groups, grouped, wording, findings);
    built := built + Map(Generic, unmatched);
    assert built == Recs(Items(groups, findings, wording));
    recommendations := Sort(built);
  }

  // ---------------------------------------------------------------- what a reader can rely on

  /** A report reorders what was built: it has the recommendations of the items, no more. */
  lemma ReportHoldsTheItems(groups: seq<Group>, findings: seq<Finding>, wording: string -> Wording)
    ensures multiset(Report(groups, findings, wording)) == multiset(Recs(Items(groups, findings, wording)))
    ensures Ordered(Report(groups, findings, wording))
    ensures forall k ::
      Keyed(Report(groups, findings, wording), k) == Keyed(Recs(Items(groups, findings, wording)), k)
  {
    SortIsTheStableSort(Recs(Items(groups, findings, wording)));
  }

  lemma {:induction false} InFlatten(parts: seq<seq<Finding>>, f: Finding)
    ensures f in Flatten(parts) <==> exists i :: 0 <= i < |parts| && f in parts[i]
  {
    if parts != [] {
      InFlatten(parts[1..], f);
      if i :| 0 <= i < |parts| - 1 && f in parts[1..][i] {
        assert f in parts[i + 1];
      }
      if i :| 0 < i < |parts| && f in parts[i] {
        assert f in parts[1..][i - 1];
      }
    }
  }

  lemma AbsorbedSomewhere(items: seq<Item>, f: Finding)
    ensures f in Absorbed(items) <==> exists i :: 0 <= i < |items| && f in items[i].absorbed
  {
    InFlatten(Parts(items), f);
    if i :| 0 <= i < |items| && f in items[i].absorbed {
      assert f in Parts(items)[i];
    }
  }

  /** Some recommendation is at least as pressing as the finding. */
  predicate Answered(f: Finding, report: seq<Recommendation>) {
    exists i :: 0 <= i < |report| && Weight(PriorityOf(f.severity)) <= Weight(report[i].priority)
  }

  /** Some finding has the recommendation's priority. */
  predicate Justified(rec: Recommendation, findings: seq<Finding>) {
    exists i :: 0 <= i < |findings| && rec.priority == PriorityOf(findings[i].severity)
  }

  predicate AnyCritical(findings: seq<Finding>) {
    exists i :: 0 <= i < |findings| && findings[i].severity.Critical?
  }

  /** No finding is played down and no recommendation is pressed beyond the findings. */
  lemma EveryFindingIsAnswered(groups: seq<Group>, findings: seq<Finding>, wording: string -> Wording)
    requires DistinctKeys(groups)
    ensures forall f :: f in findings ==> Answered(f, Report(groups, findings, wording))
    ensures forall rec :: rec in Report(groups, findings, wording) ==> Justified(rec, findings)
  {
    hide Sort, Items, Absorbed, TextLeq;
    var items, report := Items(groups, findings, wording), Report(groups, findings, wording);
    ReportHoldsTheItems(groups, findings, wording);
    EachFindingIsAbsorbedOnce(groups, findings, wording);
    PriorityIsThatOfTheWorst(groups, findings, wording);
    forall f | f in findings
      ensures Answered(f, report)
    {
      assert f in multiset(findings);
      AbsorbedSomewhere(items, f);
      var i :| 0 <= i < |items| && f in items[i].absorbed;
      assert PriorityOfWorst(items[i]);
      assert Recs(items)[i] in multiset(Recs(items));
      assert Recs(items)[i] in report;
    }
    forall rec | rec in report
      ensures Justified(rec, findings)
    {
      assert rec in multiset(report);
      assert rec in Recs(items);
      var i :| 0 <= i < |items| && items[i].rec == rec;
      assert PriorityOfWorst(items[i]);
      var f :| f in items[i].absorbed && rec.priority == PriorityOf(f.severity);
      AbsorbedSomewhere(items, f);
      assert f in multiset(findings);
    }
  }

  lemma FirstIsHeaviest(report: seq<Recommendation>, i: nat)
    requires Ordered(report) && i < |report|
    ensures Weight(report[i].priority) <= Weight(report[0].priority)
  {
    hide TextLeq;
    assert i == 0 || Leq(report[0], report[i]);
  }

  /** There is something to recommend exactly when something was found, and the first
      recommendation is urgent exactly when some finding is critical. */
  lemma UrgentFirstIffCritical(groups: seq<Group>, findings: seq<Finding>, wording: string -> Wording)
    requires DistinctKeys(groups)
    ensures Report(groups, findings, wording) == [] <==> findings == []
    ensures findings != [] ==> (Report(groups, findings, wording)[0].priority.Urgent? <==> AnyCritical(findings))
  {
    hide Report, Ordered, DistinctKeys;
    var report := Report(groups, findings, wording);
    ReportHoldsTheItems(groups, findings, wording);
    EveryFindingIsAnswered(groups, findings, wording);
    if report != [] {
      assert Justified(report[0], findings);
    }
    if findings != [] {
      assert Answered(findings[0], report);
    }
    if AnyCritical(findings) {
      var i :| 0 <= i < |findings| && findings[i].severity.Critical?;
      assert Answered(findings[i], report);
      var j :| 0 <= j < |report| && Weight(PriorityOf(findings[i].severity)) <= Weight(report[j].priority);
      FirstIsHeaviest(report, j);
    }
  }

  // ---------------------------------------------------------------- the engine's table

  lemma HomeIsUnique(title: string, groups: seq<Group>, g: Group)
    requires DisjointTitles(groups)
    requires g in groups
    ensures title in g.titles <==> GroupFor(title, groups) == Some(g)
  {
    hide GroupFor;
    if title in g.titles {
      var home := GroupFor(title, groups).value;
      var i :| 0 <= i < |groups| && groups[i] == g;
      var j :| 0 <= j < |groups| && groups[j] == home;
    }
  }

  /** The place in the table of the group of each listed title. Length and first character are
      enough to tell the groups apart, which spares comparing the titles pair by pair; other
      titles are put anywhere. */
  function HomeIndex(title: string): nat {
    if |title| == 17 && title[0] == 'R' then 0
    else if |title| == 17 || |title| == 20 || (|title| == 24 && title[0] == 'C') then 1
    else if |title| == 23 || |title| == 27 then 2
    else if |title| == 24 || |title| == 28 then 3
    else if |title| == 21 && title[0] == 'M' then 4
    else if |title| == 12 then 5
    else 6
  }

  lemma HomeOfTitle(i: nat, title: string)
    requires i < |GROUPS| && title in GROUPS[i].titles
    ensures HomeIndex(title) == i
  {
    var k :| 0 <= k < |GROUPS[i].titles| && GROUPS[i].titles[k] == title;
  }

  lemma KeysOfTable()
    ensures DistinctKeys(GROUPS)
  {
    assert forall i :: 0 <= i < |GROUPS| ==> |GROUPS[i].key| == [12, 3, 6, 7, 3, 4, 12][i];
    assert forall i :: 0 <= i < |GROUPS| ==> GROUPS[i].key[0] == ['c', 'c', 'm', 's', 'w', 'w', 'd'][i];
  }

  lemma TitlesOfTable()
    ensures DisjointTitles(GROUPS)
  {
    hide HomeIndex;
    forall i, j, title | 0 <= i < j < |GROUPS| && title in GROUPS[i].titles
      ensures title !in GROUPS[j].titles
    {
      HomeOfTitle(i, title);
      if title in GROUPS[j].titles {
        HomeOfTitle(j, title);
      }
    }
  }

  /** In the engine's table no key repeats and no title belongs to two groups, so the group of a
      finding is the one that lists its title, whatever the order of the table. */
  lemma TableIsUnambiguous(title: string, g: Group)
    requires g in GROUPS
    ensures DistinctKeys(GROUPS)
    ensures title in g.titles <==> GroupFor(title, GROUPS) == Some(g)
  {
    hide *;
    KeysOfTable();
    TitlesOfTable();
    HomeIsUnique(title, GROUPS, g);
  }
}
