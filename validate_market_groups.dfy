/**
 * The `groups.json` validator: a recursive walk over the published market
 * group tree that collects issues, counts groups, subgroups and items,
 * tracks the deepest level reached and detects item ids that appear under
 * two different names.
 *
 * The walk is specified by functions that thread the validator's state
 * (`Stats`) through the tree (`CheckNode`, `Subgroups`, `Items`,
 * `CheckItem`); the class `MarketGroupsValidator` does the same work with
 * loops and field updates and is proved equal to them.  Independent
 * reference definitions (`Tree`, `Forest`) say what the counters mean, and
 * lemmas connect the two.
 */
module ValidateMarketGroups {
  import opened Common
  import opened JsValue
  import opened MarketGroups

  // ---------------------------------------------------------------------
  // Issues.  The source pushes message strings; here each message is the
  // structured value it is formatted from.
  // ---------------------------------------------------------------------

  /** Whom a message is about: a group (by its path) or an item inside one. */
  datatype Subject = GroupAt(group: string) | ItemAt(group: string, item: string)

  datatype Issue =
    | NotObject(who: Subject)
    | MissingProperty(who: Subject, prop: string)
    | BadId(who: Subject, id: Js)
    | BadName(who: Subject, name: Js)
    | BadSubgroups(group: string)
    | BadItems(group: string)
    | NameMismatch(group: string, item: string, name: Js)
    | ConflictingName(id: Js, existing: Js, name: Js)

  const GroupProps: seq<string> := ["id", "name", "subgroups", "items"]
  const ItemProps: seq<string> := ["item_id", "name"]

  /** `typeof j === 'number' && j > 0` */
  predicate PositiveNumber(j: Js) {
    j.Num? && j.n > 0
  }

  /** `typeof j === 'string' && j.trim() !== ''` */
  predicate NonBlankString(j: Js) {
    j.Str? && !Blank(j.s)
  }

  /** One "missing required property" issue per listed property `j` lacks, in list order. */
  function MissingIssues(j: Js, props: seq<string>, who: Subject): seq<Issue>
    decreases |props|
  {
    if props == [] then []
    else
      var p := props[|props| - 1];
      MissingIssues(j, props[..|props| - 1], who) + (if Has(j, p) then [] else [MissingProperty(who, p)])
  }

  /** Exactly the absent properties are reported, each under the right subject, at most one issue each. */
  lemma {:induction false} MissingIssuesSpec(j: Js, props: seq<string>, who: Subject)
    ensures |MissingIssues(j, props, who)| <= |props|
    ensures forall p :: MissingProperty(who, p) in MissingIssues(j, props, who) <==> p in props && !Has(j, p)
    ensures forall i :: 0 <= i < |MissingIssues(j, props, who)| ==>
      MissingIssues(j, props, who)[i].MissingProperty? && MissingIssues(j, props, who)[i].who == who
    decreases |props|
  {
    if props != [] {
      var init := props[..|props| - 1];
      MissingIssuesSpec(j, init, who);
      assert props == init + [props[|props| - 1]];
    }
  }

  /** The checks `validateGroupNode` makes on an object node before looking inside it. */
  function GroupOwnIssues(node: Js, group: string): seq<Issue> {
    MissingIssues(node, GroupProps, GroupAt(group)) + GroupValueIssues(node, group)
  }

  /** The type and value checks on a group's `id` and `name`. */
  function GroupValueIssues(node: Js, group: string): seq<Issue> {
    (if PositiveNumber(Get(node, "id")) then [] else [BadId(GroupAt(group), Get(node, "id"))])
    + (if NonBlankString(Get(node, "name")) then [] else [BadName(GroupAt(group), Get(node, "name"))])
  }

  /** The checks `validateItem` makes on an object item before the duplicate check. */
  function ItemOwnIssues(item: Js, key: string, group: string): seq<Issue> {
    MissingIssues(item, ItemProps, ItemAt(group, key)) + ItemValueIssues(item, key, group)
  }

  /** The checks on an item's `item_id` and `name`, and on its key against its name. */
  function ItemValueIssues(item: Js, key: string, group: string): seq<Issue> {
    (if PositiveNumber(Get(item, "item_id")) then [] else [BadId(ItemAt(group, key), Get(item, "item_id"))])
    + (if NonBlankString(Get(item, "name")) then [] else [BadName(ItemAt(group, key), Get(item, "name"))])
    + (if StrictEq(Get(item, "name"), Str(key)) then [] else [NameMismatch(group, key, Get(item, "name"))])
  }

  // ---------------------------------------------------------------------
  // The validator's state and its specification.
  // ---------------------------------------------------------------------

  /**
   * `this.stats` and `this.allItems`.  `duplicateItems` is a `Set` kept in
   * insertion order; `allItems` is a `Map` from item id to the first name
   * seen for it.
   */
  datatype Stats = Stats(
    totalGroups: nat,
    totalSubgroups: nat,
    totalItems: nat,
    maxDepth: nat,
    emptyGroups: nat,
    duplicateItems: seq<Js>,
    allItems: seq<(Js, Js)>)

  const Fresh := Stats(0, 0, 0, 0, 0, [], [])

  /** `this.allItems.get(id)`: a `Map` matches an object key only by identity, so never here. */
  function Recorded(all: seq<(Js, Js)>, id: Js): Option<Js> {
    if IsObjectLike(id) then None else Lookup(all, id)
  }

  /** The duplicate check of `validateItem`. */
  function Remember(st: Stats, id: Js, name: Js): (seq<Issue>, Stats) {
    match Recorded(st.allItems, id)
    case Some(existing) =>
      if StrictEq(existing, name) then ([], st)
      else ([ConflictingName(id, existing, name)], st.(duplicateItems := AddOnce(st.duplicateItems, id)))
    case None => ([], st.(allItems := Put(st.allItems, id, name)))
  }

  /** `validateItem(item, key, group)`: its issues and the new state. */
  function CheckItem(st: Stats, item: Js, key: string, group: string): (seq<Issue>, Stats) {
    if !IsObjectLike(item) then ([NotObject(ItemAt(group, key))], st)
    else
      var d := Remember(st, Get(item, "item_id"), Get(item, "name"));
      (ItemOwnIssues(item, key, group) + d.0, d.1)
  }

  /** Issues so far, the state, and whether an exception is propagating. */
  datatype Walk = Walk(issues: seq<Issue>, stats: Stats, threw: bool)

  /** The `for (const [itemName, item] of Object.entries(node.items))` loop. */
  function Items(w: Walk, entries: seq<(string, Js)>, group: string): Walk
    decreases |entries|
  {
    if entries == [] then w
    else
      var c := CheckItem(w.stats, entries[0].1, entries[0].0, group);
      Items(Walk(w.issues + c.0, c.1, w.threw), entries[1..], group)
  }

  /** The path a child is reported under: the key itself at the top, `parent > key` below. */
  function ChildName(parent: Option<string>, key: string): string {
    if parent.Some? then parent.value + " > " + key else key
  }

  /**
   * `validateGroupNode(node, name, depth)`: the node's own issues (its
   * subgroups' and items' included) and the new state.  `threw` is set when
   * `Object.keys(node.subgroups)` is reached with nullish subgroups.
   */
  function CheckNode(st: Stats, node: Js, name: string, depth: nat): Walk
    decreases Size(node), 2
  {
    if !IsObjectLike(node) then Walk([NotObject(GroupAt(name))], st.(maxDepth := Max(st.maxDepth, depth)), false)
    else
      var w := EnterNode(st, GroupOwnIssues(node, name), node, name, depth);
      if w.threw then w else VisitItems(w, node, name)
  }

  /**
   * The first half of `validateGroupNode` on an object: the depth, then
   * the subgroups after the node's own issues `own` (its `GroupOwnIssues`).
   */
  function EnterNode(st: Stats, own: seq<Issue>, node: Js, name: string, depth: nat): Walk
    requires IsObjectLike(node)
    decreases Size(node), 1
  {
    var st1 := st.(maxDepth := Max(st.maxDepth, depth));
    var subs := Get(node, "subgroups");
    if IsObjectLike(subs) then
      GetBelow(node, "subgroups");
      EntriesBelow(subs);
      var es := Entries(subs);
      Subgroups(Walk(own, st1.(totalSubgroups := st1.totalSubgroups + |es|), false), es, Some(name), depth + 1)
    else Walk(own + [BadSubgroups(name)], st1, false)
  }

  /** The second half: the item count, the empty-group test, then the items. */
  function VisitItems(w: Walk, node: Js, name: string): Walk {
    var subs := Get(node, "subgroups");
    var items := Get(node, "items");
    if !IsObjectLike(items) then w.(issues := w.issues + [BadItems(name)])
    else
      var es := Entries(items);
      var st2 := w.stats.(totalItems := w.stats.totalItems + |es|);
      if |es| == 0 && KeyCount(subs).None? then Walk(w.issues, st2, true)
      else
        var st3 := if |es| == 0 && KeyCount(subs) == Some(0) then st2.(emptyGroups := st2.emptyGroups + 1) else st2;
        Items(Walk(w.issues, st3, false), es, name)
  }

  /**
   * The loop over `Object.entries(...)` that validates each child in turn
   * and appends its issues; an exception ends it.
   */
  function Subgroups(w: Walk, entries: seq<(string, Js)>, parent: Option<string>, depth: nat): Walk
    decreases FieldsSize(entries), 3
  {
    if entries == [] || w.threw then w
    else
      FieldsSizeHead(entries);
      var c := CheckNode(w.stats, entries[0].1, ChildName(parent, entries[0].0), depth);
      Subgroups(Walk(w.issues + c.issues, c.stats, c.threw), entries[1..], parent, depth)
  }

  // ---------------------------------------------------------------------
  // The report and the whole run.
  // ---------------------------------------------------------------------

  datatype Statistics = Statistics(
    totalGroups: nat,
    totalSubgroups: nat,
    totalItems: nat,
    maxDepth: nat,
    emptyGroups: nat,
    duplicateItemsCount: nat)

  datatype Report = Report(isValid: bool, issueCount: nat, issues: seq<Issue>, statistics: Statistics)

  /** `generateReport(issues)` */
  function GenerateReport(issues: seq<Issue>, st: Stats): (r: Report)
    ensures r.isValid <==> issues == []
    ensures r.issueCount == |r.issues| && r.issues == issues
    ensures r.statistics.duplicateItemsCount == |st.duplicateItems|
  {
    Report(issues == [], |issues|, issues,
      Statistics(st.totalGroups, st.totalSubgroups, st.totalItems, st.maxDepth, st.emptyGroups, |st.duplicateItems|))
  }

  /** The report `validate` prints (none when it fails with an exception) and the final state. */
  datatype Run = Run(report: Option<Report>, stats: Stats)

  /** `validate()`, given the parsed file (`None` when reading or parsing fails). */
  function Validation(st: Stats, file: Option<Js>): Run {
    if file.None? || !IsObjectLike(file.value) then Run(None, st)
    else
      var es := Entries(file.value);
      var w := Subgroups(Walk([], st.(totalGroups := |es|), false), es, None, 0);
      if w.threw then Run(None, w.stats) else Run(Some(GenerateReport(w.issues, w.stats)), w.stats)
  }

  // ---------------------------------------------------------------------
  // What a single check reports.
  // ---------------------------------------------------------------------

  /** A node that is not an object gets one issue and no further checks; only the depth is recorded. */
  lemma NotObjectNode(st: Stats, node: Js, name: string, depth: nat)
    requires !IsObjectLike(node)
    ensures CheckNode(st, node, name, depth).issues == [NotObject(GroupAt(name))]
    ensures CheckNode(st, node, name, depth).stats == st.(maxDepth := Max(st.maxDepth, depth))
    ensures !CheckNode(st, node, name, depth).threw
  {
  }

  /** An item that is not an object gets one issue and changes nothing. */
  lemma NotObjectItem(st: Stats, item: Js, key: string, group: string)
    requires !IsObjectLike(item)
    ensures CheckItem(st, item, key, group) == ([NotObject(ItemAt(group, key))], st)
  {
  }

  /** The group checks: one issue per absent property, one for a bad id and one for a bad name. */
  lemma GroupChecks(node: Js, g: string)
    ensures forall p :: MissingProperty(GroupAt(g), p) in GroupOwnIssues(node, g) <==> p in GroupProps && !Has(node, p)
    ensures BadId(GroupAt(g), Get(node, "id")) in GroupOwnIssues(node, g) <==> !PositiveNumber(Get(node, "id"))
    ensures BadName(GroupAt(g), Get(node, "name")) in GroupOwnIssues(node, g) <==> !NonBlankString(Get(node, "name"))
    ensures |GroupOwnIssues(node, g)| == |MissingIssues(node, GroupProps, GroupAt(g))|
      + (if PositiveNumber(Get(node, "id")) then 0 else 1) + (if NonBlankString(Get(node, "name")) then 0 else 1)
  {
    var missing, values := MissingIssues(node, GroupProps, GroupAt(g)), GroupValueIssues(node, g);
    MissingIssuesSpec(node, GroupProps, GroupAt(g));
    forall p
      ensures MissingProperty(GroupAt(g), p) !in values
    {
    }
    assert BadId(GroupAt(g), Get(node, "id")) !in missing;
    assert BadName(GroupAt(g), Get(node, "name")) !in missing;
  }

  /** The item checks: one issue per absent property, one for a bad id and one for a bad name. */
  lemma ItemChecks(item: Js, key: string, g: string)
    ensures forall p :: MissingProperty(ItemAt(g, key), p) in ItemOwnIssues(item, key, g) <==> p in ItemProps && !Has(item, p)
    ensures BadId(ItemAt(g, key), Get(item, "item_id")) in ItemOwnIssues(item, key, g) <==> !PositiveNumber(Get(item, "item_id"))
    ensures BadName(ItemAt(g, key), Get(item, "name")) in ItemOwnIssues(item, key, g) <==> !NonBlankString(Get(item, "name"))
  {
    var missing, values := MissingIssues(item, ItemProps, ItemAt(g, key)), ItemValueIssues(item, key, g);
    MissingIssuesSpec(item, ItemProps, ItemAt(g, key));
    forall p
      ensures MissingProperty(ItemAt(g, key), p) !in values
    {
    }
    assert BadId(ItemAt(g, key), Get(item, "item_id")) !in missing;
    assert BadName(ItemAt(g, key), Get(item, "name")) !in missing;
  }

  /** An item stored under a key other than its name gets a mismatch issue, and only then. */
  lemma ItemMismatch(item: Js, key: string, g: string)
    ensures NameMismatch(g, key, Get(item, "name")) in ItemOwnIssues(item, key, g) <==> Get(item, "name") != Str(key)
    ensures |ItemOwnIssues(item, key, g)| == |MissingIssues(item, ItemProps, ItemAt(g, key))|
      + (if PositiveNumber(Get(item, "item_id")) then 0 else 1) + (if NonBlankString(Get(item, "name")) then 0 else 1)
      + (if Get(item, "name") == Str(key) then 0 else 1)
  {
    MissingIssuesSpec(item, ItemProps, ItemAt(g, key));
    assert NameMismatch(g, key, Get(item, "name")) !in MissingIssues(item, ItemProps, ItemAt(g, key));
  }

  lemma {:induction false} ItemsExtend(w: Walk, entries: seq<(string, Js)>, g: string)
    ensures w.issues <= Items(w, entries, g).issues
    decreases |entries|
  {
    if entries != [] {
      var c := CheckItem(w.stats, entries[0].1, entries[0].0, g);
      ItemsExtend(Walk(w.issues + c.0, c.1, w.threw), entries[1..], g);
    }
  }

  lemma {:induction false} SubgroupsExtend(w: Walk, entries: seq<(string, Js)>, parent: Option<string>, depth: nat)
    ensures w.issues <= Subgroups(w, entries, parent, depth).issues
    decreases |entries|
  {
    if entries != [] && !w.threw {
      var c := CheckNode(w.stats, entries[0].1, ChildName(parent, entries[0].0), depth);
      SubgroupsExtend(Walk(w.issues + c.issues, c.stats, c.threw), entries[1..], parent, depth);
    }
  }

  /** Whatever happens below an object node, its issues open with its own checks. */
  lemma NodeIssuesStart(st: Stats, node: Js, name: string, depth: nat)
    requires IsObjectLike(node)
    ensures GroupOwnIssues(node, name) <= CheckNode(st, node, name, depth).issues
  {
    var w := EnterNode(st, GroupOwnIssues(node, name), node, name, depth);
    EnterIssuesStart(st, GroupOwnIssues(node, name), node, name, depth);
    if !w.threw {
      VisitItemsExtend(w, node, name);
    }
  }

  lemma EnterIssuesStart(st: Stats, own: seq<Issue>, node: Js, name: string, depth: nat)
    requires IsObjectLike(node)
    ensures own <= EnterNode(st, own, node, name, depth).issues
  {
    var subs := Get(node, "subgroups");
    if IsObjectLike(subs) {
      GetBelow(node, "subgroups");
      EntriesBelow(subs);
      var es := Entries(subs);
      var st1 := st.(maxDepth := Max(st.maxDepth, depth));
      SubgroupsExtend(Walk(own, st1.(totalSubgroups := st1.totalSubgroups + |es|), false), es, Some(name), depth + 1);
    }
  }

  lemma VisitItemsExtend(w: Walk, node: Js, name: string)
    ensures w.issues <= VisitItems(w, node, name).issues
  {
    var items := Get(node, "items");
    if IsObjectLike(items) {
      var es := Entries(items);
      var subs := Get(node, "subgroups");
      var st2 := w.stats.(totalItems := w.stats.totalItems + |es|);
      var st3 := if |es| == 0 && KeyCount(subs) == Some(0) then st2.(emptyGroups := st2.emptyGroups + 1) else st2;
      ItemsExtend(Walk(w.issues, st3, false), es, name);
    }
  }

  /**
   * The duplicate check: an id seen for the first time is recorded with its
   * name; a repeat under the same name changes nothing and reports nothing;
   * a repeat under another name keeps the first name, adds the id to the
   * duplicates and reports one conflict.
   */
  lemma DuplicateRule(st: Stats, item: Js, key: string, g: string)
    requires IsObjectLike(item)
    ensures var id, name, r := Get(item, "item_id"), Get(item, "name"), CheckItem(st, item, key, g);
      match Recorded(st.allItems, id)
      case None =>
        r.0 == ItemOwnIssues(item, key, g) && r.1.duplicateItems == st.duplicateItems
        && (!IsObjectLike(id) ==> Recorded(r.1.allItems, id) == Some(name))
      case Some(first) =>
        r.1.allItems == st.allItems
        && (StrictEq(first, name) ==> r == (ItemOwnIssues(item, key, g), st))
        && (!StrictEq(first, name) ==>
              r.0 == ItemOwnIssues(item, key, g) + [ConflictingName(id, first, name)]
              && id in r.1.duplicateItems)
  {
    assert ItemOwnIssues(item, key, g) + [] == ItemOwnIssues(item, key, g);
  }

  // ---------------------------------------------------------------------
  // What the counters mean: a reference walk over the tree that ignores
  // issues and ids.
  // ---------------------------------------------------------------------

  /**
   * `deepest`: the deepest level visited; `subgroups`, `items`: the entries
   * of the valid `subgroups` and `items` objects; `empty`: nodes whose items
   * and subgroups both have no keys; `throws`: some node has no items and
   * nullish subgroups, so `Object.keys` throws.
   */
  datatype Summary = Summary(deepest: nat, subgroups: nat, items: nat, empty: nat, throws: bool)

  function Combine(a: Summary, b: Summary): Summary {
    Summary(Max(a.deepest, b.deepest), a.subgroups + b.subgroups, a.items + b.items, a.empty + b.empty,
      a.throws || b.throws)
  }

  /** The reference summary of a node visited at `depth`. */
  function Tree(node: Js, depth: nat): Summary
    decreases Size(node), 2
  {
    if !IsObjectLike(node) then Summary(depth, 0, 0, 0, false)
    else Combine(UpperSummary(node, depth), ItemSummary(node))
  }

  /** The node itself and everything below its subgroups. */
  function UpperSummary(node: Js, depth: nat): Summary
    decreases Size(node), 1
  {
    var subs := Get(node, "subgroups");
    if IsObjectLike(subs) then
      GetBelow(node, "subgroups");
      EntriesBelow(subs);
      Combine(Summary(depth, |Entries(subs)|, 0, 0, false), Forest(Entries(subs), depth + 1))
    else Summary(depth, 0, 0, 0, false)
  }

  /** The node's items: their count, whether the node is empty, whether it throws. */
  function ItemSummary(node: Js): Summary {
    var subs, items := Get(node, "subgroups"), Get(node, "items");
    if !IsObjectLike(items) then Summary(0, 0, 0, 0, false)
    else
      var n := |Entries(items)|;
      Summary(0, 0, n, if n == 0 && KeyCount(subs) == Some(0) then 1 else 0, n == 0 && KeyCount(subs).None?)
  }

  /** The reference summary of sibling nodes, all at `depth`. */
  function Forest(entries: seq<(string, Js)>, depth: nat): Summary
    decreases FieldsSize(entries), 3
  {
    if entries == [] then Summary(0, 0, 0, 0, false)
    else
      FieldsSizeHead(entries);
      Combine(Tree(entries[0].1, depth), Forest(entries[1..], depth))
  }

  /** `after`'s counters are `before`'s advanced by `s`. */
  predicate Adds(before: Stats, after: Stats, s: Summary) {
    after.maxDepth == Max(before.maxDepth, s.deepest)
    && after.totalSubgroups == before.totalSubgroups + s.subgroups
    && after.totalItems == before.totalItems + s.items
    && after.emptyGroups == before.emptyGroups + s.empty
    && after.totalGroups == before.totalGroups
  }

  lemma {:induction false} ItemsKeepCounters(w: Walk, entries: seq<(string, Js)>, g: string)
    ensures Items(w, entries, g).threw == w.threw
    ensures Adds(w.stats, Items(w, entries, g).stats, Summary(0, 0, 0, 0, false))
    decreases |entries|
  {
    if entries != [] {
      var c := CheckItem(w.stats, entries[0].1, entries[0].0, g);
      ItemsKeepCounters(Walk(w.issues + c.0, c.1, w.threw), entries[1..], g);
    }
  }

  /**
   * A node's walk throws exactly when the reference walk finds a throwing
   * node, and otherwise advances the counters by the reference summary.
   */
  lemma {:induction false} NodeSummary(st: Stats, node: Js, name: string, depth: nat)
    ensures CheckNode(st, node, name, depth).threw == Tree(node, depth).throws
    ensures !CheckNode(st, node, name, depth).threw ==> Adds(st, CheckNode(st, node, name, depth).stats, Tree(node, depth))
    decreases Size(node), 2
  {
    if IsObjectLike(node) {
      var w := EnterNode(st, GroupOwnIssues(node, name), node, name, depth);
      EnterSummary(st, GroupOwnIssues(node, name), node, name, depth);
      if !w.threw {
        VisitItemsSummary(w, node, name);
      }
    }
  }

  /** An object node with object-like subgroups walks them, starting from its own issues. */
  lemma EnterWalksSubgroups(st: Stats, own: seq<Issue>, node: Js, name: string, depth: nat)
    requires IsObjectLike(node) && IsObjectLike(Get(node, "subgroups"))
    ensures var es := Entries(Get(node, "subgroups"));
      EnterNode(st, own, node, name, depth) == Subgroups(
        Walk(own, st.(maxDepth := Max(st.maxDepth, depth), totalSubgroups := st.totalSubgroups + |es|), false),
        es, Some(name), depth + 1)
  {
  }

  /** Counters advanced by one summary and then another are advanced by their combination. */
  lemma AddsCombine(a: Stats, b: Stats, c: Stats, s1: Summary, s2: Summary, s: Summary)
    requires Adds(a, b, s1) && Adds(b, c, s2) && s == Combine(s1, s2)
    ensures Adds(a, c, s)
  {
  }

  lemma {:induction false} EnterSummary(st: Stats, own: seq<Issue>, node: Js, name: string, depth: nat)
    requires IsObjectLike(node)
    ensures EnterNode(st, own, node, name, depth).threw == UpperSummary(node, depth).throws
    ensures !EnterNode(st, own, node, name, depth).threw ==> Adds(st, EnterNode(st, own, node, name, depth).stats, UpperSummary(node, depth))
    decreases Size(node), 1
  {
    var subs := Get(node, "subgroups");
    if IsObjectLike(subs) {
      GetBelow(node, "subgroups");
      EntriesBelow(subs);
      var es := Entries(subs);
      var upper := Summary(depth, |es|, 0, 0, false);
      var start := Walk(own, st.(maxDepth := Max(st.maxDepth, depth), totalSubgroups := st.totalSubgroups + |es|), false);
      EnterWalksSubgroups(st, own, node, name, depth);
      ForestSummary(start, es, Some(name), depth + 1);
      var f := Forest(es, depth + 1);
      assert UpperSummary(node, depth) == Combine(upper, f);
      var r := Subgroups(start, es, Some(name), depth + 1);
      if !r.threw {
        assert Adds(st, start.stats, upper);
        AddsCombine(st, start.stats, r.stats, upper, f, UpperSummary(node, depth));
      }
      assert EnterNode(st, own, node, name, depth) == r;
    } else {
      assert EnterNode(st, own, node, name, depth) == Walk(own + [BadSubgroups(name)], st.(maxDepth := Max(st.maxDepth, depth)), false);
      assert UpperSummary(node, depth) == Summary(depth, 0, 0, 0, false);
    }
  }

  lemma VisitItemsSummary(w: Walk, node: Js, name: string)
    requires !w.threw
    ensures VisitItems(w, node, name).threw == ItemSummary(node).throws
    ensures !VisitItems(w, node, name).threw ==> Adds(w.stats, VisitItems(w, node, name).stats, ItemSummary(node))
  {
    var items := Get(node, "items");
    if !IsObjectLike(items) {
      assert VisitItems(w, node, name) == w.(issues := w.issues + [BadItems(name)]);
      assert ItemSummary(node) == Summary(0, 0, 0, 0, false);
    } else if |Entries(items)| == 0 && KeyCount(Get(node, "subgroups")).None? {
      assert VisitItems(w, node, name).threw;
    } else {
      VisitSomeItems(w, node, name);
    }
  }

  /** The items case of `VisitItemsSummary`: the walk goes on through the items. */
  lemma VisitSomeItems(w: Walk, node: Js, name: string)
    requires !w.threw && IsObjectLike(Get(node, "items"))
    requires !(|Entries(Get(node, "items"))| == 0 && KeyCount(Get(node, "subgroups")).None?)
    ensures !VisitItems(w, node, name).threw && !ItemSummary(node).throws
    ensures Adds(w.stats, VisitItems(w, node, name).stats, ItemSummary(node))
  {
    var es := Entries(Get(node, "items"));
    var subs := Get(node, "subgroups");
    var st2 := w.stats.(totalItems := w.stats.totalItems + |es|);
    var st3 := if |es| == 0 && KeyCount(subs) == Some(0) then st2.(emptyGroups := st2.emptyGroups + 1) else st2;
    var w3 := Walk(w.issues, st3, false);
    assert VisitItems(w, node, name) == Items(w3, es, name);
    ItemsKeepCounters(w3, es, name);
    assert Adds(w.stats, st3, ItemSummary(node));
    AddsCombine(w.stats, st3, Items(w3, es, name).stats, ItemSummary(node), Summary(0, 0, 0, 0, false), ItemSummary(node));
  }

  lemma {:induction false} ForestSummary(w: Walk, entries: seq<(string, Js)>, parent: Option<string>, depth: nat)
    requires !w.threw
    ensures Subgroups(w, entries, parent, depth).threw == Forest(entries, depth).throws
    ensures !Subgroups(w, entries, parent, depth).threw ==>
      Adds(w.stats, Subgroups(w, entries, parent, depth).stats, Forest(entries, depth))
    decreases FieldsSize(entries), 3
  {
    if entries != [] {
      FieldsSizeHead(entries);
      var c := CheckNode(w.stats, entries[0].1, ChildName(parent, entries[0].0), depth);
      NodeSummary(w.stats, entries[0].1, ChildName(parent, entries[0].0), depth);
      if !c.threw {
        ForestSummary(Walk(w.issues + c.issues, c.stats, false), entries[1..], parent, depth);
      }
    }
  }

  /**
   * The whole run: a report exists exactly when the file parses to an
   * object and no group throws; `totalGroups` is the number of top-level
   * keys, and the other counters follow the reference walk from depth 0.
   */
  lemma RunSummary(st: Stats, file: Option<Js>)
    ensures Validation(st, file).report.Some? <==>
      file.Some? && IsObjectLike(file.value) && !Forest(Entries(file.value), 0).throws
    ensures Validation(st, file).report.Some? ==>
      var s, r := Forest(Entries(file.value), 0), Validation(st, file).report.value;
      r.statistics.totalGroups == |Entries(file.value)|
      && r.statistics.maxDepth == Max(st.maxDepth, s.deepest)
      && r.statistics.totalSubgroups == st.totalSubgroups + s.subgroups
      && r.statistics.totalItems == st.totalItems + s.items
      && r.statistics.emptyGroups == st.emptyGroups + s.empty
      && (r.isValid <==> r.issues == [])
  {
    if file.Some? && IsObjectLike(file.value) {
      var es := Entries(file.value);
      ForestSummary(Walk([], st.(totalGroups := |es|), false), es, None, 0);
    }
  }

  // ---------------------------------------------------------------------
  // Item ids: the first name seen is never replaced, duplicates only grow,
  // and every duplicate is an id already recorded.
  // ---------------------------------------------------------------------

  ghost predicate Remembers(a: Stats, b: Stats) {
    (forall k :: Recorded(a.allItems, k).Some? ==> Recorded(b.allItems, k) == Recorded(a.allItems, k))
    && (forall x :: x in a.duplicateItems ==> x in b.duplicateItems)
  }

  ghost predicate Sound(st: Stats) {
    Distinct(st.duplicateItems) && forall x :: x in st.duplicateItems ==> Recorded(st.allItems, x).Some?
  }

  lemma ItemRemembers(st: Stats, item: Js, key: string, g: string)
    requires Sound(st)
    ensures Sound(CheckItem(st, item, key, g).1) && Remembers(st, CheckItem(st, item, key, g).1)
  {
  }

  lemma {:induction false} ItemsRemember(w: Walk, entries: seq<(string, Js)>, g: string)
    requires Sound(w.stats)
    ensures Sound(Items(w, entries, g).stats) && Remembers(w.stats, Items(w, entries, g).stats)
    decreases |entries|
  {
    if entries != [] {
      var c := CheckItem(w.stats, entries[0].1, entries[0].0, g);
      ItemRemembers(w.stats, entries[0].1, entries[0].0, g);
      ItemsRemember(Walk(w.issues + c.0, c.1, w.threw), entries[1..], g);
    }
  }

  lemma {:induction false} NodeRemembers(st: Stats, node: Js, name: string, depth: nat)
    requires Sound(st)
    ensures Sound(CheckNode(st, node, name, depth).stats) && Remembers(st, CheckNode(st, node, name, depth).stats)
    decreases Size(node), 2
  {
    if IsObjectLike(node) {
      var w := EnterNode(st, GroupOwnIssues(node, name), node, name, depth);
      EnterRemembers(st, GroupOwnIssues(node, name), node, name, depth);
      if !w.threw {
        VisitItemsRemember(w, node, name);
      }
    }
  }

  lemma {:induction false} EnterRemembers(st: Stats, own: seq<Issue>, node: Js, name: string, depth: nat)
    requires IsObjectLike(node) && Sound(st)
    ensures Sound(EnterNode(st, own, node, name, depth).stats) && Remembers(st, EnterNode(st, own, node, name, depth).stats)
    decreases Size(node), 1
  {
    var subs := Get(node, "subgroups");
    if IsObjectLike(subs) {
      GetBelow(node, "subgroups");
      EntriesBelow(subs);
      var es := Entries(subs);
      var st1 := st.(maxDepth := Max(st.maxDepth, depth));
      var start := Walk(own, st1.(totalSubgroups := st1.totalSubgroups + |es|), false);
      ForestRemembers(start, es, Some(name), depth + 1);
    }
  }

  lemma VisitItemsRemember(w: Walk, node: Js, name: string)
    requires Sound(w.stats)
    ensures Sound(VisitItems(w, node, name).stats) && Remembers(w.stats, VisitItems(w, node, name).stats)
  {
    var items := Get(node, "items");
    if IsObjectLike(items) {
      var es := Entries(items);
      var subs := Get(node, "subgroups");
      var st2 := w.stats.(totalItems := w.stats.totalItems + |es|);
      var st3 := if |es| == 0 && KeyCount(subs) == Some(0) then st2.(emptyGroups := st2.emptyGroups + 1) else st2;
      ItemsRemember(Walk(w.issues, st3, false), es, name);
    }
  }

  lemma {:induction false} ForestRemembers(w: Walk, entries: seq<(string, Js)>, parent: Option<string>, depth: nat)
    requires Sound(w.stats)
    ensures Sound(Subgroups(w, entries, parent, depth).stats) && Remembers(w.stats, Subgroups(w, entries, parent, depth).stats)
    decreases FieldsSize(entries), 3
  {
    if entries != [] && !w.threw {
      FieldsSizeHead(entries);
      var c := CheckNode(w.stats, entries[0].1, ChildName(parent, entries[0].0), depth);
      NodeRemembers(w.stats, entries[0].1, ChildName(parent, entries[0].0), depth);
      ForestRemembers(Walk(w.issues + c.issues, c.stats, c.threw), entries[1..], parent, depth);
    }
  }

  // ---------------------------------------------------------------------
  // The validator object.
  // ---------------------------------------------------------------------

  class MarketGroupsValidator {
    var totalGroups: nat
    var totalSubgroups: nat
    var totalItems: nat
    var maxDepth: nat
    var emptyGroups: nat
    var duplicateItems: seq<Js>
    var allItems: seq<(Js, Js)>

    function State(): Stats
      reads this
    {
      Stats(totalGroups, totalSubgroups, totalItems, maxDepth, emptyGroups, duplicateItems, allItems)
    }

    constructor ()
      ensures State() == Fresh
    {
      totalGroups, totalSubgroups, totalItems, maxDepth, emptyGroups := 0, 0, 0, 0, 0;
      duplicateItems, allItems := [], [];
    }

    method ValidateItem(item: Js, key: string, group: string) returns (issues: seq<Issue>)
      modifies this`allItems, this`duplicateItems
      ensures (issues, State()) == CheckItem(old(State()), item, key, group)
    {
      if !IsObjectLike(item) {
        return [NotObject(ItemAt(group, key))];
      }
      issues := CheckItemProperties(item, key, group);
      var id, name := Get(item, "item_id"), Get(item, "name");
      ghost var d := Remember(State(), id, name);
      var existing := Recorded(allItems, id);
      if existing.Some? {
        if !StrictEq(existing.value, name) {
          duplicateItems := AddOnce(duplicateItems, id);
          issues := issues + [ConflictingName(id, existing.value, name)];
        }
      } else {
        allItems := Put(allItems, id, name);
      }
      assert State() == d.1;
      assert issues == ItemOwnIssues(item, key, group) + d.0;
    }

    /** The property checks at the top of `validateItem`; they change nothing. */
    method CheckItemProperties(item: Js, key: string, group: string) returns (issues: seq<Issue>)
      requires IsObjectLike(item)
      ensures issues == ItemOwnIssues(item, key, group)
    {
      issues := [];
      for p := 0 to |ItemProps|
        invariant issues == MissingIssues(item, ItemProps[..p], ItemAt(group, key))
      {
        assert ItemProps[..p + 1][..p] == ItemProps[..p];
        if !Has(item, ItemProps[p]) {
          issues := issues + [MissingProperty(ItemAt(group, key), ItemProps[p])];
        }
      }
      assert ItemProps[..|ItemProps|] == ItemProps;
      var id, name := Get(item, "item_id"), Get(item, "name");
      if !PositiveNumber(id) {
        issues := issues + [BadId(ItemAt(group, key), id)];
      }
      if !NonBlankString(name) {
        issues := issues + [BadName(ItemAt(group, key), name)];
      }
      if !StrictEq(name, Str(key)) {
        issues := issues + [NameMismatch(group, key, name)];
      }
    }

    /** The property checks at the top of `validateGroupNode`; they change nothing. */
    method CheckGroupProperties(node: Js, name: string) returns (issues: seq<Issue>)
      requires IsObjectLike(node)
      ensures issues == GroupOwnIssues(node, name)
    {
      issues := [];
      for p := 0 to |GroupProps|
        invariant issues == MissingIssues(node, GroupProps[..p], GroupAt(name))
      {
        assert GroupProps[..p + 1][..p] == GroupProps[..p];
        if !Has(node, GroupProps[p]) {
          issues := issues + [MissingProperty(GroupAt(name), GroupProps[p])];
        }
      }
      assert GroupProps[..|GroupProps|] == GroupProps;
      if !PositiveNumber(Get(node, "id")) {
        issues := issues + [BadId(GroupAt(name), Get(node, "id"))];
      }
      if !NonBlankString(Get(node, "name")) {
        issues := issues + [BadName(GroupAt(name), Get(node, "name"))];
      }
    }

    method ValidateGroupNode(node: Js, name: string, depth: nat) returns (issues: seq<Issue>, threw: bool)
      modifies this
      ensures Walk(issues, State(), threw) == CheckNode(old(State()), node, name, depth)
      decreases Size(node), 2
    {
      if !IsObjectLike(node) {
        maxDepth := Max(maxDepth, depth);
        return [NotObject(GroupAt(name))], false;
      }
      issues, threw := EnterGroupNode(node, name, depth);
      if !threw {
        issues, threw := FinishGroupNode(node, name, issues);
      }
    }

    /** `validateGroupNode` on an object, up to and including its subgroups. */
    method EnterGroupNode(node: Js, name: string, depth: nat) returns (issues: seq<Issue>, threw: bool)
      requires IsObjectLike(node)
      modifies this
      ensures Walk(issues, State(), threw) == EnterNode(old(State()), GroupOwnIssues(node, name), node, name, depth)
      decreases Size(node), 1
    {
      ghost var st1 := old(State()).(maxDepth := Max(maxDepth, depth));
      maxDepth := Max(maxDepth, depth);
      assert State() == st1;
      issues := CheckGroupProperties(node, name);
      var subs := Get(node, "subgroups");
      if !IsObjectLike(subs) {
        return issues + [BadSubgroups(name)], false;
      }
      var entries := Entries(subs);
      totalSubgroups := totalSubgroups + |entries|;
      assert State() == st1.(totalSubgroups := st1.totalSubgroups + |entries|);
      GetBelow(node, "subgroups");
      EntriesBelow(subs);
      ghost var goal := Subgroups(Walk(issues, State(), false), entries, Some(name), depth + 1);
      assert goal == EnterNode(old(State()), GroupOwnIssues(node, name), node, name, depth);
      issues, threw := ValidateSubgroups(entries, name, depth + 1, issues);
    }

    /** `validateGroupNode` from the item check on. */
    method FinishGroupNode(node: Js, name: string, issues0: seq<Issue>) returns (issues: seq<Issue>, threw: bool)
      modifies this
      ensures Walk(issues, State(), threw) == VisitItems(Walk(issues0, old(State()), false), node, name)
    {
      var items := Get(node, "items");
      if !IsObjectLike(items) {
        return issues0 + [BadItems(name)], false;
      }
      var entries := Entries(items);
      totalItems := totalItems + |entries|;
      if |entries| == 0 {
        var count := KeyCount(Get(node, "subgroups"));
        if count.None? {
          return issues0, true;
        }
        if count.value == 0 {
          emptyGroups := emptyGroups + 1;
        }
      }
      issues := ValidateItems(entries, name, issues0);
      threw := false;
    }

    /** The subgroup loop of `validateGroupNode`: each child at `depth`, under `name > key`. */
    method ValidateSubgroups(entries: seq<(string, Js)>, name: string, depth: nat, issues0: seq<Issue>)
      returns (issues: seq<Issue>, threw: bool)
      modifies this
      ensures Walk(issues, State(), threw) == Subgroups(Walk(issues0, old(State()), false), entries, Some(name), depth)
      decreases FieldsSize(entries), 3
    {
      issues := issues0;
      ghost var goal := Subgroups(Walk(issues, State(), false), entries, Some(name), depth);
      for k := 0 to |entries|
        invariant Subgroups(Walk(issues, State(), false), entries[k..], Some(name), depth) == goal
      {
        FieldBelow(entries, k);
        assert entries[k..][0] == entries[k] && entries[k..][1..] == entries[k + 1..];
        var sub, t := ValidateGroupNode(entries[k].1, ChildName(Some(name), entries[k].0), depth);
        issues := issues + sub;
        if t {
          return issues, true;
        }
      }
      threw := false;
    }

    /** The item loop of `validateGroupNode`. */
    method ValidateItems(entries: seq<(string, Js)>, name: string, issues0: seq<Issue>) returns (issues: seq<Issue>)
      modifies this`allItems, this`duplicateItems
      ensures Walk(issues, State(), false) == Items(Walk(issues0, old(State()), false), entries, name)
    {
      issues := issues0;
      ghost var goal := Items(Walk(issues, State(), false), entries, name);
      for k := 0 to |entries|
        invariant Items(Walk(issues, State(), false), entries[k..], name) == goal
      {
        assert entries[k..][0] == entries[k] && entries[k..][1..] == entries[k + 1..];
        var itemIssues := ValidateItem(entries[k].1, entries[k].0, name);
        issues := issues + itemIssues;
      }
    }

    /** `validate()`: whether the file passed; the report is what it prints. */
    method Validate(file: Option<Js>) returns (valid: bool, report: Option<Report>)
      modifies this
      ensures report == Validation(old(State()), file).report
      ensures State() == Validation(old(State()), file).stats
      ensures valid <==> report.Some? && report.value.isValid
    {
      if file.None? || !IsObjectLike(file.value) {
        return false, None;
      }
      var groups := file.value;
      var issues := [];
      var entries := Entries(groups);
      totalGroups := |entries|;
      ghost var goal := Subgroups(Walk(issues, State(), false), entries, None, 0);
      for k := 0 to |entries|
        invariant Subgroups(Walk(issues, State(), false), entries[k..], None, 0) == goal
      {
        assert entries[k..][0] == entries[k] && entries[k..][1..] == entries[k + 1..];
        var groupIssues, t := ValidateGroupNode(entries[k].1, entries[k].0, 0);
        issues := issues + groupIssues;
        if t {
          return false, None;
        }
      }
      report := Some(GenerateReport(issues, State()));
      valid := report.value.isValid;
    }
  }
}
