/**
 * update_market_groups.js, the enhanced market-group updater: a sliding
 * one-second request window, request classification with bounded retries,
 * the group and type fetch loops that fill the `marketGroups` and
 * `typeInfo` maps, the name-sorted `groups.json` tree, the cache age
 * check and the command-line options.
 *
 * Time is explicit: `t` is `Date.now()` when a step starts; a `sleep(ms)`
 * advances it by exactly `ms` and an HTTP answer arrives at once.
 */
module UpdateMarketGroups {
  import opened Common
  import opened JsValue
  import opened MarketGroups

  // ---------------------------------------------------------------------
  // Command line: `parseInt`, then the `args.forEach` switch.
  // ---------------------------------------------------------------------

  function TrimStart(s: string): (r: string)
    ensures r == [] || !IsSpace(r[0])
    ensures |r| <= |s| && r == s[|s| - |r|..]
  {
    if s != [] && IsSpace(s[0]) then TrimStart(s[1..]) else s
  }

  predicate IsHexDigit(c: char) {
    IsDigit(c) || 'a' <= c <= 'f' || 'A' <= c <= 'F'
  }

  function HexValue(c: char): (d: nat)
    requires IsHexDigit(c)
    ensures d < 16
  {
    if IsDigit(c) then DigitValue(c)
    else if 'a' <= c <= 'f' then (c as int - 'a' as int + 10) as nat
    else (c as int - 'A' as int + 10) as nat
  }

  /** The longest prefix of `s` whose characters satisfy `ok`. */
  function Leading(s: string, ok: char -> bool): (r: string)
    ensures |r| <= |s| && r == s[..|r|]
    ensures forall i :: 0 <= i < |r| ==> ok(r[i])
    ensures |r| < |s| ==> !ok(s[|r|])
  {
    if s != [] && ok(s[0]) then [s[0]] + Leading(s[1..], ok) else []
  }

  function HexDigitsValue(s: string): nat
    requires forall i :: 0 <= i < |s| ==> IsHexDigit(s[i])
  {
    if |s| == 0 then 0 else 16 * HexDigitsValue(s[..|s| - 1]) + HexValue(s[|s| - 1])
  }

  /**
   * `parseInt(s)` with no radix; None stands for NaN.  Leading white space
   * and one sign are skipped; the rest is read by `ParseUnsigned`.
   */
  function ParseInt(s: string): (r: Option<int>) {
    var t := TrimStart(s);
    var sign := if t != [] && t[0] == '-' then -1 else 1;
    ParseUnsigned(if t != [] && (t[0] == '-' || t[0] == '+') then t[1..] else t, sign)
  }

  /** A `0x`/`0X` prefix reads hexadecimal digits; otherwise the longest run of decimal digits is read. */
  function ParseUnsigned(u: string, sign: int): Option<int> {
    if HexPrefix(u) then
      var ds := Leading(u[2..], IsHexDigit);
      if ds == [] then None else Some(sign * HexDigitsValue(ds))
    else
      var ds := Leading(u, IsDigit);
      if ds == [] then None else Some(sign * DigitsValue(ds))
  }

  predicate HexPrefix(u: string) {
    |u| >= 2 && u[0] == '0' && (u[1] == 'x' || u[1] == 'X')
  }

  lemma {:induction false} LeadingAll(s: string, rest: string, ok: char -> bool)
    requires forall i :: 0 <= i < |s| ==> ok(s[i])
    requires rest == [] || !ok(rest[0])
    ensures Leading(s + rest, ok) == s
  {
    if s != [] {
      assert (s + rest)[1..] == s[1..] + rest;
      LeadingAll(s[1..], rest, ok);
      assert s == [s[0]] + s[1..];
    }
  }

  /** A character that ends a numeral: neither a digit nor the `x` of a hexadecimal prefix. */
  predicate EndsNumeral(rest: string) {
    rest == [] || (!IsDigit(rest[0]) && rest[0] != 'x' && rest[0] != 'X')
  }

  lemma ParseUnsignedDigits(digits: string, rest: string, sign: int)
    requires |digits| >= 1 && forall i :: 0 <= i < |digits| ==> IsDigit(digits[i])
    requires EndsNumeral(rest)
    ensures ParseUnsigned(digits + rest, sign) == Some(sign * DigitsValue(digits))
  {
    LeadingAll(digits, rest, IsDigit);
    var u := digits + rest;
    if |u| >= 2 {
      if |digits| >= 2 {
        assert u[1] == digits[1];
      } else {
        assert u[1] == rest[0];
      }
    }
    assert !HexPrefix(u);
  }

  lemma ParseIntStart(s: string)
    requires s != [] && !IsSpace(s[0])
    ensures ParseInt(s) == ParseUnsigned(if s[0] == '-' || s[0] == '+' then s[1..] else s,
                                         if s[0] == '-' then -1 else 1)
  {
    assert TrimStart(s) == s;
  }

  /**
   * `parseInt` reads back a printed integer, also when text that cannot
   * continue the numeral follows it (`"42ms"`).
   */
  lemma ParseIntPrinted(n: int, rest: string)
    requires EndsNumeral(rest)
    ensures ParseInt(IntToString(n) + rest) == Some(n)
  {
    var m: nat := if n < 0 then -n else n;
    var digits := NatToString(m);
    NatToStringValue(m);
    ParseUnsignedDigits(digits, rest, if n < 0 then -1 else 1);
    if n < 0 {
      var s := "-" + (digits + rest);
      assert IntToString(n) + rest == s;
      assert s[1..] == digits + rest;
      ParseIntStart(s);
    } else {
      var s := digits + rest;
      assert IntToString(n) + rest == s;
      assert s[0] == digits[0];
      ParseIntStart(s);
    }
  }

  /** Text with no digit before its first non-space, non-sign character is NaN. */
  lemma ParseIntNaN(s: string)
    requires var t := TrimStart(s); t == [] || (!IsDigit(t[0]) && t[0] != '-' && t[0] != '+')
    ensures ParseInt(s) == None
  {
  }

  /** `parseInt(args[index + 1]) || 150`: NaN and zero give 150. */
  function RateArg(next: Option<string>): (r: int)
    ensures r != 0
  {
    var parsed := if next.Some? then ParseInt(next.value) else None;  // parseInt(undefined) is NaN
    if parsed.Some? && parsed.value != 0 then parsed.value else 150
  }

  /** The CLI `options` object: only the keys the switch assigns. */
  datatype Options = Options(verbose: bool, createBackup: Option<bool>, useCache: Option<bool>, rateLimit: Option<int>)

  const NoOptions := Options(false, None, None, None)

  /** One step of `args.forEach((arg, index) => switch (arg) ...)`. */
  function ArgStep(o: Options, args: seq<string>, index: nat): Options
    requires index < |args|
  {
    var arg := args[index];
    if arg == "--verbose" || arg == "-v" then o.(verbose := true)
    else if arg == "--no-backup" then o.(createBackup := Some(false))
    else if arg == "--no-cache" then o.(useCache := Some(false))
    else if arg == "--rate-limit" then
      o.(rateLimit := Some(RateArg(if index + 1 < |args| then Some(args[index + 1]) else None)))
    else o
  }

  /** The options after the first `k` arguments were visited. */
  function OptionsAfter(args: seq<string>, k: nat): Options
    requires k <= |args|
  {
    if k == 0 then NoOptions else ArgStep(OptionsAfter(args, k - 1), args, k - 1)
  }

  method ParseArgs(args: seq<string>) returns (options: Options)
    ensures options == OptionsAfter(args, |args|)
  {
    options := NoOptions;
    for index := 0 to |args|
      invariant options == OptionsAfter(args, index)
    {
      var arg := args[index];
      if arg == "--verbose" || arg == "-v" {
        options := options.(verbose := true);
      } else if arg == "--no-backup" {
        options := options.(createBackup := Some(false));
      } else if arg == "--no-cache" {
        options := options.(useCache := Some(false));
      } else if arg == "--rate-limit" {
        var next := if index + 1 < |args| then Some(args[index + 1]) else None;
        options := options.(rateLimit := Some(RateArg(next)));
      }
    }
  }

  /** The rate limit the last `--rate-limit` among the first `k` arguments sets. */
  predicate LastRateFlag(args: seq<string>, k: nat, i: int)
    requires k <= |args|
  {
    0 <= i < k && args[i] == "--rate-limit" && forall j :: i < j < k ==> args[j] != "--rate-limit"
  }

  /**
   * What the switch leaves in `options`: `verbose` exactly when `--verbose`
   * or `-v` is given, and `createBackup`/`useCache` false exactly when
   * `--no-backup`/`--no-cache` is given.
   */
  lemma {:induction false} ArgsFlags(args: seq<string>, k: nat)
    requires k <= |args|
    ensures var o := OptionsAfter(args, k);
            && (o.verbose <==> exists i :: 0 <= i < k && (args[i] == "--verbose" || args[i] == "-v"))
            && (o.createBackup == if exists i :: 0 <= i < k && args[i] == "--no-backup" then Some(false) else None)
            && (o.useCache == if exists i :: 0 <= i < k && args[i] == "--no-cache" then Some(false) else None)
  {
    if k > 0 {
      ArgsFlags(args, k - 1);
    }
  }

  lemma StepRate(o: Options, args: seq<string>, index: nat)
    requires index < |args|
    ensures args[index] == "--rate-limit" ==>
              ArgStep(o, args, index).rateLimit == Some(RateArg(if index + 1 < |args| then Some(args[index + 1]) else None))
    ensures args[index] != "--rate-limit" ==> ArgStep(o, args, index).rateLimit == o.rateLimit
  {
    if args[index] == "--rate-limit" {
      assert |args[index]| == 12;
      assert |"--verbose"| == 9 && |"-v"| == 2 && |"--no-backup"| == 11 && |"--no-cache"| == 10;
    }
  }

  /**
   * The rate limit is set exactly when `--rate-limit` is given, by the
   * last one, from the argument after it (150 for NaN or 0).
   */
  lemma {:induction false} ArgsRateLimit(args: seq<string>, k: nat)
    requires k <= |args|
    ensures var o := OptionsAfter(args, k);
            && (o.rateLimit.None? <==> forall i :: 0 <= i < k ==> args[i] != "--rate-limit")
            && (forall i :: LastRateFlag(args, k, i) ==>
                  o.rateLimit == Some(RateArg(if i + 1 < |args| then Some(args[i + 1]) else None)))
  {
    if k > 0 {
      ArgsRateLimit(args, k - 1);
      StepRate(OptionsAfter(args, k - 1), args, k - 1);
      forall i | LastRateFlag(args, k, i)
        ensures i == k - 1 || LastRateFlag(args, k - 1, i)
      {
      }
    }
  }

  // ---------------------------------------------------------------------
  // Rate window: `enforceRateLimit`
  // ---------------------------------------------------------------------

  const RateLimitWindow := 1000

  /** `requestCount`, `lastRequestTime` and `Date.now()` once the request may go. */
  datatype Window = Window(count: int, start: int, clock: int)

  /**
   * The window restarts when a full window has passed since it started;
   * a full window waits for its remainder and then restarts; the request
   * is then counted.  With a limit of at least one and a count that never
   * went negative, the count stays between 1 and the limit, and on a clock
   * that did not run backwards the request goes inside its window.
   */
  function Admit(count: int, start: int, now: int, rateLimit: int): (w: Window)
    ensures count >= 0 ==> w.count >= 1
    ensures rateLimit >= 1 && count >= 0 ==> 1 <= w.count <= rateLimit
    ensures rateLimit >= 1 && now - start >= RateLimitWindow ==> w == Window(1, now, now)
    ensures now - start < RateLimitWindow ==>
              if count >= rateLimit then w == Window(1, start + RateLimitWindow, start + RateLimitWindow)
              else w == Window(count + 1, start, now)
    ensures now >= start ==> w.start <= w.clock < w.start + RateLimitWindow
  {
    var reset := now - start >= RateLimitWindow;
    var count1 := if reset then 0 else count;
    var start1 := if reset then now else start;
    if count1 >= rateLimit && RateLimitWindow - (now - start1) > 0 then
      var waited := now + (RateLimitWindow - (now - start1));
      Window(1, waited, waited)
    else Window(count1 + 1, start1, now)
  }

  // ---------------------------------------------------------------------
  // `makeRequest` classification
  // ---------------------------------------------------------------------

  const Retries := 3

  /** `{ notModified: true }` */
  const NotModifiedKey: string := "notModified"
  const NotModified := Obj([(NotModifiedKey, Bool(true))])

  /** 5xx and 420 answers and request errors are retried while retries remain. */
  predicate Retryable(a: Attempt) {
    (a.Answered? && (a.status >= 500 || a.status == 420)) || a.NetError?
  }

  /** How an attempt settles the request when it is not retried. */
  function Settle(a: Attempt): Reply {
    match a
    case Answered(status, body) =>
      if status == 404 then Resolved(Null)
      else if status == 304 then Resolved(NotModified)
      else if status == 200 then (if body.Some? then Resolved(body.value) else Rejected)
      else Rejected
    case NetError => Rejected
    case TimedOut => Rejected
  }

  /** The wait before a retry: 2 s after a 5xx, 60 s after a 420, 1 s after a request error. */
  function RetryDelay(a: Attempt): int {
    if a.Answered? && a.status >= 500 then 2000 else if a.Answered? then 60000 else 1000
  }

  function Request(net: nat -> Attempt, from: nat, retries: nat): Served {
    Serve(net, from, retries, Retryable, Settle)
  }

  /**
   * A 404 resolves to null and a 304 to `{notModified: true}` at once; a
   * 200 resolves to its parsed body and rejects when it does not parse; a
   * 5xx, a 420 or a request error with retries left makes one more attempt
   * with one retry fewer; every other answer, and a timeout, rejects.
   */
  lemma Classification(net: nat -> Attempt, from: nat, retries: nat)
    ensures var s := Serve(net, from, retries, Retryable, Settle);
            var a := net(from);
            && (a.Answered? && a.status == 404 ==> s == Served(Resolved(Null), 1))
            && (a.Answered? && a.status == 304 ==> s == Served(Resolved(NotModified), 1))
            && (a.Answered? && a.status == 200 ==>
                  s == Served(if a.body.Some? then Resolved(a.body.value) else Rejected, 1))
            && (Retryable(a) && retries > 0 ==>
                  var next := Serve(net, from + 1, retries - 1, Retryable, Settle);
                  s == Served(next.reply, next.calls + 1))
            && (Retryable(a) && retries == 0 ==> s == Served(Rejected, 1))
            && (a.Answered? && a.status !in {200, 304, 404} && !Retryable(a) ==> s == Served(Rejected, 1))
            && (a.TimedOut? ==> s == Served(Rejected, 1))
  {
  }

  // ---------------------------------------------------------------------
  // What the detail requests store
  // ---------------------------------------------------------------------

  /** `fetchMarketGroupDetails`: stored only when the reply has a truthy `name`. */
  function StoreGroup(groups: seq<(Js, Group)>, groupId: Js, reply: Reply): seq<(Js, Group)> {
    if reply.Resolved? && Truthy(reply.value) && Truthy(Get(reply.value, "name")) then
      var d := reply.value;
      Put(groups, groupId, Group(groupId, Get(d, "name"), Or(Get(d, "description"), Str("")),
                                 Get(d, "parent_group_id"), Or(Get(d, "types"), Arr([]))))
    else groups
  }

  /** `fetchTypeDetails`: stored only when the reply has a truthy `name`; `published !== false`. */
  function StoreType(types: seq<(Js, TypeRecord)>, typeId: Js, reply: Reply): seq<(Js, TypeRecord)> {
    if reply.Resolved? && Truthy(reply.value) && Truthy(Get(reply.value, "name")) then
      var d := reply.value;
      Put(types, typeId, TypeRecord(typeId, Get(d, "name"), Or(Get(d, "description"), Str("")),
                                    Get(d, "group_id"), Get(d, "category_id"),
                                    Bool(Get(d, "published") != Bool(false)), Get(d, "market_group_id")))
    else types
  }

  /**
   * A group is stored under its id exactly when the reply resolved to a
   * value with a truthy `name`; the record keeps that name and parent, its
   * description defaults to `''` and its types to `[]`; no other entry changes.
   */
  lemma StoreGroupRule(groups: seq<(Js, Group)>, groupId: Js, reply: Reply)
    ensures var d := if reply.Resolved? then reply.value else Undef;
            var stored := reply.Resolved? && Truthy(d) && Truthy(Get(d, "name"));
            var after := StoreGroup(groups, groupId, reply);
            && (stored ==> Lookup(after, groupId) == Some(Group(groupId, Get(d, "name"),
                              if Truthy(Get(d, "description")) then Get(d, "description") else Str(""),
                              Get(d, "parent_group_id"),
                              if Truthy(Get(d, "types")) then Get(d, "types") else Arr([]))))
            && (!stored ==> after == groups)
            && (forall k :: k != groupId ==> Lookup(after, k) == Lookup(groups, k))
  {
  }

  /**
   * A type is stored under its id exactly when the reply resolved to a value
   * with a truthy `name`, and it is published unless the reply says
   * `published: false`.
   */
  lemma StoreTypeRule(types: seq<(Js, TypeRecord)>, typeId: Js, reply: Reply)
    ensures var d := if reply.Resolved? then reply.value else Undef;
            var stored := reply.Resolved? && Truthy(d) && Truthy(Get(d, "name"));
            var after := StoreType(types, typeId, reply);
            && (stored ==> exists r :: Lookup(after, typeId) == Some(r) && r.id == typeId && r.name == Get(d, "name")
                                       && (Truthy(r.published) <==> Get(d, "published") != Bool(false)))
            && (!stored ==> after == types)
            && (forall k :: k != typeId ==> Lookup(after, k) == Lookup(types, k))
  {
    var after := StoreType(types, typeId, reply);
    if reply.Resolved? && Truthy(reply.value) && Truthy(Get(reply.value, "name")) {
      assert Lookup(after, typeId).Some?;
    }
  }

  /** Every stored group is keyed by its own id and has a truthy name and types. */
  predicate GroupsWellStored(groups: seq<(Js, Group)>) {
    forall i :: 0 <= i < |groups| ==>
      groups[i].1.id == groups[i].0 && Truthy(groups[i].1.name) && Truthy(groups[i].1.types)
  }

  /** Every stored type is keyed by its own id, has a truthy name and a boolean `published`. */
  predicate TypesWellStored(types: seq<(Js, TypeRecord)>) {
    forall i :: 0 <= i < |types| ==>
      types[i].1.id == types[i].0 && Truthy(types[i].1.name) && types[i].1.published.Bool?
  }

  lemma PutKeeps<V>(m: seq<(Js, V)>, k: Js, v: V, ok: (Js, V) -> bool)
    requires forall i :: 0 <= i < |m| ==> ok(m[i].0, m[i].1)
    requires ok(k, v)
    ensures forall i :: 0 <= i < |Put(m, k, v)| ==> ok(Put(m, k, v)[i].0, Put(m, k, v)[i].1)
    decreases |m|
  {
    if m != [] && m[0].0 != k {
      PutKeeps(m[1..], k, v, ok);
      assert Put(m, k, v) == [m[0]] + Put(m[1..], k, v);
    }
  }

  lemma StoreGroupKeeps(groups: seq<(Js, Group)>, groupId: Js, reply: Reply)
    requires GroupsWellStored(groups)
    ensures GroupsWellStored(StoreGroup(groups, groupId, reply))
  {
    var ok := (k: Js, g: Group) => g.id == k && Truthy(g.name) && Truthy(g.types);
    if reply.Resolved? && Truthy(reply.value) && Truthy(Get(reply.value, "name")) {
      var d := reply.value;
      var g := Group(groupId, Get(d, "name"), Or(Get(d, "description"), Str("")),
                     Get(d, "parent_group_id"), Or(Get(d, "types"), Arr([])));
      assert Truthy(g.types);
      PutKeeps(groups, groupId, g, ok);
    }
  }

  lemma StoreTypeKeeps(types: seq<(Js, TypeRecord)>, typeId: Js, reply: Reply)
    requires TypesWellStored(types)
    ensures TypesWellStored(StoreType(types, typeId, reply))
  {
    var ok := (k: Js, r: TypeRecord) => r.id == k && Truthy(r.name) && r.published.Bool?;
    if reply.Resolved? && Truthy(reply.value) && Truthy(Get(reply.value, "name")) {
      var d := reply.value;
      PutKeeps(types, typeId, TypeRecord(typeId, Get(d, "name"), Or(Get(d, "description"), Str("")),
                                         Get(d, "group_id"), Get(d, "category_id"),
                                         Bool(Get(d, "published") != Bool(false)), Get(d, "market_group_id")), ok);
    }
  }

  // ---------------------------------------------------------------------
  // The detail loops
  // ---------------------------------------------------------------------

  /** Which detail request a loop makes: market groups in batches of 5, types in batches of 3. */
  datatype Kind = GroupDetails | TypeDetails

  function BatchSize(kind: Kind): nat {
    if kind.GroupDetails? then 5 else 3
  }

  /** The maps and counters the detail loops fill. */
  datatype Tally = Tally(groups: seq<(Js, Group)>, types: seq<(Js, TypeRecord)>, groupsFetched: nat, typesFetched: nat)

  /** One detail request's effect: its reply is stored, and a request that did not reject is counted. */
  function Record(kind: Kind, tally: Tally, id: Js, reply: Reply): Tally {
    var n := if reply.Resolved? then 1 else 0;
    if kind.GroupDetails? then
      tally.(groups := StoreGroup(tally.groups, id, reply), groupsFetched := tally.groupsFetched + n)
    else
      tally.(types := StoreType(tally.types, id, reply), typesFetched := tally.typesFetched + n)
  }

  /** The requests for `ids`, in order, answered by `replies`. */
  function RecordAll(kind: Kind, tally: Tally, ids: seq<Js>, replies: seq<Reply>): Tally
    requires |ids| == |replies|
  {
    if ids == [] then tally
    else Record(kind, RecordAll(kind, tally, ids[..|ids| - 1], replies[..|ids| - 1]), ids[|ids| - 1], replies[|ids| - 1])
  }

  /** The group loop only stores groups and counts them; the type loop only types. */
  lemma {:induction false} RecordAllTouches(kind: Kind, tally: Tally, ids: seq<Js>, replies: seq<Reply>)
    requires |ids| == |replies|
    ensures var after := RecordAll(kind, tally, ids, replies);
            && (kind.GroupDetails? ==> after.types == tally.types && after.typesFetched == tally.typesFetched
                                       && after.groupsFetched == tally.groupsFetched + ResolvedCount(replies))
            && (kind.TypeDetails? ==> after.groups == tally.groups && after.groupsFetched == tally.groupsFetched
                                      && after.typesFetched == tally.typesFetched + ResolvedCount(replies))
  {
    if ids != [] {
      RecordAllTouches(kind, tally, ids[..|ids| - 1], replies[..|ids| - 1]);
    }
  }

  predicate WellStored(tally: Tally) {
    GroupsWellStored(tally.groups) && TypesWellStored(tally.types)
  }

  lemma RecordKeeps(kind: Kind, tally: Tally, id: Js, reply: Reply)
    requires WellStored(tally)
    ensures WellStored(Record(kind, tally, id, reply))
  {
    if kind.GroupDetails? {
      StoreGroupKeeps(tally.groups, id, reply);
    } else {
      StoreTypeKeeps(tally.types, id, reply);
    }
  }

  /** However the detail requests are answered, the maps stay well stored. */
  lemma {:induction false} RecordAllKeeps(kind: Kind, tally: Tally, ids: seq<Js>, replies: seq<Reply>)
    requires |ids| == |replies| && WellStored(tally)
    ensures WellStored(RecordAll(kind, tally, ids, replies))
  {
    if ids != [] {
      var n := |ids| - 1;
      RecordAllKeeps(kind, tally, ids[..n], replies[..n]);
      RecordKeeps(kind, RecordAll(kind, tally, ids[..n], replies[..n]), ids[n], replies[n]);
    }
  }

  function TotalCalls(ss: seq<Served>): nat {
    if ss == [] then 0 else ss[0].calls + TotalCalls(ss[1..])
  }

  lemma {:induction false} TotalCallsAppend(a: seq<Served>, b: seq<Served>)
    ensures TotalCalls(a + b) == TotalCalls(a) + TotalCalls(b)
    decreases |a|
  {
    if a != [] {
      assert (a + b)[0] == a[0] && (a + b)[1..] == a[1..] + b;
      TotalCallsAppend(a[1..], b);
    } else {
      assert a + b == b;
    }
  }

  lemma {:induction false} RepliesAppend(a: seq<Served>, b: seq<Served>)
    ensures Replies(a + b) == Replies(a) + Replies(b)
    decreases |a|
  {
    if a != [] {
      RepliesAppend(a[1..], b);
      assert (a + b)[1..] == a[1..] + b;
    } else {
      assert a + b == b;
    }
  }

  /** `m + n` requests in a row are `m` requests and then `n` more from where they stopped. */
  lemma {:induction false} ServeAllAppend(net: nat -> Attempt, from: nat, m: nat, n: nat, retries: nat)
    ensures var first := ServeAll(net, from, m, retries, Retryable, Settle);
            ServeAll(net, from, m + n, retries, Retryable, Settle)
            == first + ServeAll(net, from + TotalCalls(first), n, retries, Retryable, Settle)
    decreases m
  {
    if m > 0 {
      var s := Request(net, from, retries);
      ServeAllAppend(net, from + s.calls, m - 1, n, retries);
      var rest := ServeAll(net, from + s.calls, m - 1, retries, Retryable, Settle);
      assert ServeAll(net, from, m, retries, Retryable, Settle) == [s] + rest;
      assert TotalCalls([s] + rest) == s.calls + TotalCalls(rest);
    }
  }

  lemma ServeAllJoin(net: nat -> Attempt, from: nat, m: nat, n: nat, retries: nat,
                     first: seq<Served>, mid: nat, second: seq<Served>)
    requires first == ServeAll(net, from, m, retries, Retryable, Settle) && mid == from + TotalCalls(first)
    requires second == ServeAll(net, mid, n, retries, Retryable, Settle)
    ensures first + second == ServeAll(net, from, m + n, retries, Retryable, Settle)
  {
    ServeAllAppend(net, from, m, n, retries);
  }

  /** Recording the requests for `xs + ys` is recording those for `xs`, then those for `ys`. */
  lemma {:induction false} RecordAllAppend(kind: Kind, tally: Tally, xs: seq<Js>, ys: seq<Js>,
                                           rx: seq<Reply>, ry: seq<Reply>)
    requires |xs| == |rx| && |ys| == |ry|
    ensures RecordAll(kind, tally, xs + ys, rx + ry) == RecordAll(kind, RecordAll(kind, tally, xs, rx), ys, ry)
    decreases |ys|
  {
    if ys != [] {
      var n := |ys| - 1;
      assert (xs + ys)[..|xs| + n] == xs + ys[..n];
      assert (rx + ry)[..|xs| + n] == rx + ry[..n];
      RecordAllAppend(kind, tally, xs, ys[..n], rx, ry[..n]);
    } else {
      assert xs + ys == xs && rx + ry == rx;
    }
  }

  /** The requests for `ids[..hi]` are those for `ids[..i]` followed by those for the batch `ids[i..hi]`. */
  lemma RecordAdvance(kind: Kind, tally: Tally, ids: seq<Js>, i: nat, hi: nat, rx: seq<Reply>, ry: seq<Reply>)
    requires i <= hi <= |ids| && |rx| == i && |ry| == hi - i
    ensures RecordAll(kind, tally, ids[..hi], rx + ry) == RecordAll(kind, RecordAll(kind, tally, ids[..i], rx), ids[i..hi], ry)
  {
    assert ids[..i] + ids[i..hi] == ids[..hi];
    RecordAllAppend(kind, tally, ids[..i], ids[i..hi], rx, ry);
  }

  /** One more request recorded after those for `ids[..j]`. */
  lemma RecordStep(kind: Kind, tally: Tally, ids: seq<Js>, j: nat, rs: seq<Reply>, r: Reply)
    requires j < |ids| && |rs| == j
    ensures RecordAll(kind, tally, ids[..j + 1], rs + [r]) == Record(kind, RecordAll(kind, tally, ids[..j], rs), ids[j], r)
  {
    assert ids[..j + 1][..j] == ids[..j];
    assert (rs + [r])[..j] == rs;
  }

  class EnhancedMarketGroupsUpdater {
    var rateLimit: int
    var lastRequestTime: int
    var requestCount: int
    var marketGroups: seq<(Js, Group)>
    var typeInfo: seq<(Js, TypeRecord)>
    var groupsFetched: nat
    var typesFetched: nat
    /** `stats.apiCalls`: every attempt counts, so it is also the position in the attempt stream. */
    var apiCalls: nat
    const createBackup: bool
    const useCache: bool
    const verbose: bool
    /** The retry budget every call of `makeRequest` starts with. */
    const retries: nat

    predicate Valid()
      reads this
    {
      requestCount >= 0
    }

    function Current(): Tally
      reads this
    {
      Tally(marketGroups, typeInfo, groupsFetched, typesFetched)
    }

    /** `rateLimit || 150` and the `!== false` flags. */
    constructor (options: Options)
      ensures rateLimit == if options.rateLimit.Some? && options.rateLimit.value != 0 then options.rateLimit.value else 150
      ensures createBackup == (options.createBackup != Some(false))
      ensures useCache == (options.useCache != Some(false))
      ensures verbose == options.verbose
      ensures retries == Retries
      ensures lastRequestTime == 0 && requestCount == 0 && apiCalls == 0
      ensures Current() == Tally([], [], 0, 0)
      ensures Valid()
    {
      rateLimit := if options.rateLimit.Some? && options.rateLimit.value != 0 then options.rateLimit.value else 150;
      createBackup := options.createBackup != Some(false);
      useCache := options.useCache != Some(false);
      verbose := options.verbose;
      retries := Retries;
      lastRequestTime := 0;
      requestCount := 0;
      marketGroups := [];
      typeInfo := [];
      groupsFetched := 0;
      typesFetched := 0;
      apiCalls := 0;
    }

    /** `enforceRateLimit()` entered at `now`; returns `Date.now()` when it resolves. */
    method EnforceRateLimit(now: int) returns (t: int)
      modifies this`requestCount, this`lastRequestTime
      ensures Window(requestCount, lastRequestTime, t) == Admit(old(requestCount), old(lastRequestTime), now, rateLimit)
    {
      if now - lastRequestTime >= RateLimitWindow {
        requestCount := 0;
        lastRequestTime := now;
      }
      t := now;
      if requestCount >= rateLimit {
        var waitTime := RateLimitWindow - (now - lastRequestTime);
        if waitTime > 0 {
          t := now + waitTime;    // await this.sleep(waitTime)
          requestCount := 0;
          lastRequestTime := t;
        }
      }
      requestCount := requestCount + 1;
    }

    /**
     * `makeRequest(endpoint, retries)`: every attempt goes through the rate
     * window and is counted in `apiCalls`; a retried attempt waits first.
     */
    method MakeRequest(net: nat -> Attempt, retries: nat, t0: int) returns (reply: Reply, t: int, ghost s: Served)
      requires requestCount >= 0
      modifies this`requestCount, this`lastRequestTime, this`apiCalls
      ensures s == Serve(net, old(apiCalls), retries, Retryable, Settle)
      ensures reply == s.reply && apiCalls == old(apiCalls) + s.calls
      ensures requestCount >= 1 && (rateLimit >= 1 ==> requestCount <= rateLimit)
      decreases retries
    {
      t := EnforceRateLimit(t0);
      var a := net(apiCalls);
      apiCalls := apiCalls + 1;
      if Retryable(a) && retries > 0 {
        ghost var next;
        reply, t, next := MakeRequest(net, retries - 1, t + RetryDelay(a));
        s := Served(next.reply, next.calls + 1);
      } else {
        reply := Settle(a);
        s := Served(reply, 1);
      }
    }

    /** `fetchMarketGroupDetails(id)` or `fetchTypeDetails(id)`, with the counter the loop bumps. */
    method FetchOne(net: nat -> Attempt, kind: Kind, id: Js, t0: int) returns (t: int, ghost s: Served)
      requires Valid()
      modifies this`requestCount, this`lastRequestTime, this`apiCalls, this`marketGroups, this`typeInfo,
               this`groupsFetched, this`typesFetched
      ensures Valid()
      ensures s == Request(net, old(apiCalls), retries) && apiCalls == old(apiCalls) + s.calls
      ensures Current() == Record(kind, old(Current()), id, s.reply)
    {
      var reply;
      reply, t, s := MakeRequest(net, retries, t0);
      if kind.GroupDetails? {
        marketGroups := StoreGroup(marketGroups, id, reply);
        if reply.Resolved? {
          groupsFetched := groupsFetched + 1;
        }
      } else {
        typeInfo := StoreType(typeInfo, id, reply);
        if reply.Resolved? {
          typesFetched := typesFetched + 1;
        }
      }
    }

    /** One batch, requested id by id. */
    method FetchBatch(net: nat -> Attempt, kind: Kind, batch: seq<Js>, t0: int)
        returns (t: int, ghost served: seq<Served>)
      requires Valid()
      modifies this`requestCount, this`lastRequestTime, this`apiCalls, this`marketGroups, this`typeInfo,
               this`groupsFetched, this`typesFetched
      ensures Valid()
      ensures served == ServeAll(net, old(apiCalls), |batch|, retries, Retryable, Settle)
      ensures apiCalls == old(apiCalls) + TotalCalls(served)
      ensures Current() == RecordAll(kind, old(Current()), batch, Replies(served))
    {
      ghost var pos0, tally0 := apiCalls, Current();
      t, served := t0, [];
      for j := 0 to |batch|
        invariant Valid()
        invariant served == ServeAll(net, pos0, j, retries, Retryable, Settle)
        invariant apiCalls == pos0 + TotalCalls(served)
        invariant Current() == RecordAll(kind, tally0, batch[..j], Replies(served))
      {
        ghost var s;
        ghost var before := served;
        ghost var api := apiCalls;
        t, s := FetchOne(net, kind, batch[j], t);
        ServeAllJoin(net, pos0, j, 1, retries, before, api, [s]);
        TotalCallsAppend(before, [s]);
        RepliesAppend(before, [s]);
        RecordStep(kind, tally0, batch, j, Replies(before), s.reply);
        served := served + [s];
      }
      assert batch[..|batch|] == batch;
    }

    /**
     * The batch loop: `ids.slice(i, i + size)` for `i = 0, size, 2*size, ...`,
     * each batch requested id by id, with a pause after each batch.
     */
    method FetchDetails(net: nat -> Attempt, kind: Kind, ids: seq<Js>, t0: int)
        returns (t: int, ghost batches: seq<seq<Js>>, ghost served: seq<Served>)
      requires Valid()
      modifies this`requestCount, this`lastRequestTime, this`apiCalls, this`marketGroups, this`typeInfo,
               this`groupsFetched, this`typesFetched
      ensures Valid()
      ensures batches == Chunks(ids, BatchSize(kind))
      ensures served == ServeAll(net, old(apiCalls), |ids|, retries, Retryable, Settle)
      ensures apiCalls == old(apiCalls) + TotalCalls(served)
      ensures Current() == RecordAll(kind, old(Current()), ids, Replies(served))
    {
      var size := BatchSize(kind);
      ghost var pos0, tally0 := apiCalls, Current();
      t, batches, served := t0, [], [];
      var i := 0;
      while i < |ids|
        invariant i <= |ids| && Valid()
        invariant batches + Chunks(ids[i..], size) == Chunks(ids, size)
        invariant served == ServeAll(net, pos0, i, retries, Retryable, Settle)
        invariant apiCalls == pos0 + TotalCalls(served)
        invariant Current() == RecordAll(kind, tally0, ids[..i], Replies(served))
        decreases |ids| - i
      {
        var hi := Min(i + size, |ids|);
        var batch := ids[i..hi];
        ChunksAdvance(ids, i, size, batches);
        assert hi == i + |batch|;
        ghost var before, api := served, apiCalls;
        ghost var more;
        t, more := FetchBatch(net, kind, batch, t);
        ServeAllJoin(net, pos0, i, |batch|, retries, before, api, more);
        TotalCallsAppend(before, more);
        RepliesAppend(before, more);
        RecordAdvance(kind, tally0, ids, i, hi, Replies(before), Replies(more));
        served := before + more;
        batches := batches + [batch];
        t := t + if kind.GroupDetails? then 50 else 30;    // await this.sleep(...)
        i := hi;  // `i += batchSize`, stopping at the end of the list
      }
      assert ids[..i] == ids;
    }

    /**
     * `fetchMarketGroups()`: the id list, then every group's details.  It
     * throws (`ok` false) unless the list request resolved to an array.
     */
    method FetchMarketGroups(net: nat -> Attempt, t0: int)
        returns (ok: bool, t: int, ids: seq<Js>, ghost first: Served, ghost rest: seq<Served>)
      requires Valid()
      modifies this`requestCount, this`lastRequestTime, this`apiCalls, this`marketGroups, this`typeInfo,
               this`groupsFetched, this`typesFetched
      ensures Valid()
      ensures first == Request(net, old(apiCalls), retries)
      ensures ok <==> first.reply.Resolved? && first.reply.value.Arr?
      ensures ok ==> ids == first.reply.value.elems
      ensures ok ==> rest == ServeAll(net, old(apiCalls) + first.calls, |ids|, retries, Retryable, Settle)
      ensures ok ==> Current() == RecordAll(GroupDetails, old(Current()), ids, Replies(rest))
      ensures !ok ==> Current() == old(Current())
    {
      var list;
      list, t, first := MakeRequest(net, retries, t0);
      if !(list.Resolved? && list.value.Arr?) {
        return false, t, [], first, [];
      }
      ids := list.value.elems;
      ghost var batches;
      t, batches, rest := FetchDetails(net, GroupDetails, ids, t);
      ok := true;
    }

    /** `fetchTypeInformation()`: every unique type id of the stored groups, in batches of 3. */
    method FetchTypeInformation(net: nat -> Attempt, t0: int) returns (t: int, ids: seq<Js>)
      requires Valid()
      modifies this`requestCount, this`lastRequestTime, this`apiCalls, this`marketGroups, this`typeInfo,
               this`groupsFetched, this`typesFetched
      ensures Valid()
      ensures ids == Dedup(AllTypeIds(Values(old(marketGroups))))
      ensures Current() == RecordAll(TypeDetails, old(Current()), ids,
                                     Replies(ServeAll(net, old(apiCalls), |ids|, retries, Retryable, Settle)))
    {
      ids := CollectTypeIds(Values(marketGroups));
      ghost var batches, served;
      t, batches, served := FetchDetails(net, TypeDetails, ids, t0);
    }
  }

  // ---------------------------------------------------------------------
  // The tree: `buildHierarchy()` and `buildGroupNode(group)` over the
  // stored groups (`Array.from(marketGroups.values())`) and `typeInfo`
  // ---------------------------------------------------------------------

  function TypeName(r: TypeRecord): string {
    NameKey(r.name)
  }

  /** `typeData && typeData.published && typeData.name` */
  predicate Listed(r: TypeRecord) {
    Truthy(r.published) && Truthy(r.name)
  }

  /** `group.types.map(id => typeInfo.get(id)).filter(...)` */
  function ListedTypes(ids: seq<Js>, types: seq<(Js, TypeRecord)>): seq<TypeRecord> {
    if ids == [] then []
    else
      var rest := ListedTypes(ids[1..], types);
      match Lookup(types, ids[0])
      case Some(r) => if Listed(r) then [r] + rest else rest
      case None => rest
  }

  /** `validTypes.forEach(t => node.items[t.name] = {item_id: t.id, name: t.name})`, sorted by name. */
  function ItemEntries(ids: seq<Js>, types: seq<(Js, TypeRecord)>): seq<(string, Item)> {
    Named(SortByName(ListedTypes(ids, types), TypeName), TypeName, (r: TypeRecord) => Item(r.id, r.name))
  }

  /** `node.items`, filled only when `group.types` is a non-empty list. */
  function NodeItems(g: Group, types: seq<(Js, TypeRecord)>): seq<(string, Item)> {
    if |TypesOf(g)| > 0 then PutAll([], ItemEntries(TypesOf(g), types)) else []
  }

  /** `buildGroupNode(group)`: the recursion ends because `rank` drops from parent to child. */
  function BuildGroupNode(groups: seq<Group>, types: seq<(Js, TypeRecord)>, rank: Js -> nat, g: Group): Node
    requires Ranked(groups, rank) && Live(groups, rank, g)
    decreases rank(g.id), 1
  {
    SortedChildrenSpec(groups, rank, g);
    Node(g.id, g.name, PutAll([], NodeEntries(groups, types, rank, SortedChildren(groups, g), rank(g.id))),
         NodeItems(g, types))
  }

  /** `marketGroups.values().filter(c => c.parent_group_id === group.id).sort(by name)` */
  function SortedChildren(groups: seq<Group>, g: Group): seq<Group> {
    SortByName(Children(groups, g), GroupName)
  }

  /** The sorted children are exactly the groups whose parent is `g`, each ranked below `g`. */
  lemma SortedChildrenSpec(groups: seq<Group>, rank: Js -> nat, g: Group)
    requires Ranked(groups, rank) && Live(groups, rank, g)
    ensures forall c :: c in SortedChildren(groups, g) <==> c in groups && IsChildOf(c, g)
    ensures forall c :: c in SortedChildren(groups, g) ==> Live(groups, rank, c) && rank(c.id) < rank(g.id)
    ensures SortedByName(SortedChildren(groups, g), GroupName)
  {
    var children := Children(groups, g);
    var cs := SortedChildren(groups, g);
    ChildrenRanked(groups, g, rank);
    SortByNameSorts(children, GroupName);
    forall c ensures c in cs <==> c in children {
      assert c in cs <==> c in multiset(cs);
    }
  }

  /** `childGroups.forEach(c => node.subgroups[c.name] = buildGroupNode(c))`, as entries. */
  function NodeEntries(groups: seq<Group>, types: seq<(Js, TypeRecord)>, rank: Js -> nat,
                       cs: seq<Group>, bound: nat): seq<(string, Node)>
    requires Ranked(groups, rank)
    requires forall c :: c in cs ==> Live(groups, rank, c) && rank(c.id) < bound
    decreases bound, 0, |cs|
  {
    if cs == [] then []
    else [(GroupName(cs[0]), BuildGroupNode(groups, types, rank, cs[0]))] + NodeEntries(groups, types, rank, cs[1..], bound)
  }

  /** `rootGroups.forEach(g => hierarchy[g.name] = buildGroupNode(g))`, as entries. */
  function RootEntries(groups: seq<Group>, types: seq<(Js, TypeRecord)>, rank: Js -> nat, cs: seq<Group>): seq<(string, Node)>
    requires Ranked(groups, rank)
    requires forall c :: c in cs ==> Live(groups, rank, c)
  {
    if cs == [] then []
    else [(GroupName(cs[0]), BuildGroupNode(groups, types, rank, cs[0]))] + RootEntries(groups, types, rank, cs[1..])
  }

  function Roots(groups: seq<Group>): seq<Group> {
    SortByName(Filter(groups, IsRoot), GroupName)
  }

  /** `buildHierarchy()`: the roots, sorted by name, each with its subtree. */
  function BuildHierarchy(groups: seq<Group>, types: seq<(Js, TypeRecord)>, rank: Js -> nat): seq<(string, Node)>
    requires Ranked(groups, rank)
  {
    RootsMembers(groups);
    PutAll([], RootEntries(groups, types, rank, Roots(groups)))
  }

  /** A type is listed exactly when one of the ids has a stored record that is published and named. */
  lemma {:induction false} ListedTypesSpec(ids: seq<Js>, types: seq<(Js, TypeRecord)>)
    ensures forall r :: r in ListedTypes(ids, types) <==>
                        exists id :: id in ids && Lookup(types, id) == Some(r) && Listed(r)
    decreases |ids|
  {
    if ids != [] {
      ListedTypesSpec(ids[1..], types);
      assert forall id :: id in ids <==> id == ids[0] || id in ids[1..];
    }
  }

  /** With well-stored records, a listed record carries the type id it was listed under. */
  lemma ListedIds(ids: seq<Js>, types: seq<(Js, TypeRecord)>, r: TypeRecord)
    requires TypesWellStored(types) && r in ListedTypes(ids, types)
    ensures r.id in ids && Listed(r) && Lookup(types, r.id) == Some(r)
  {
    ListedTypesSpec(ids, types);
    var id :| id in ids && Lookup(types, id) == Some(r) && Listed(r);
    var i :| 0 <= i < |types| && types[i] == (id, r);
  }

  /**
   * A node's items: one per listed type, keyed by its name, in name order,
   * each `{item_id: typeData.id, name: typeData.name}`.
   */
  lemma NodeItemsSpec(g: Group, types: seq<(Js, TypeRecord)>)
    ensures forall k :: HasKey(NodeItems(g, types), k) <==>
                        exists r :: r in ListedTypes(TypesOf(g), types) && TypeName(r) == k
    ensures SortedKeys(NodeItems(g, types), NameLe)
    ensures forall k, it :: Lookup(NodeItems(g, types), k) == Some(it) ==>
              exists r :: r in ListedTypes(TypesOf(g), types) && TypeName(r) == k && it == Item(r.id, r.name)
  {
    var ids := TypesOf(g);
    var listed := ListedTypes(ids, types);
    var xs := SortByName(listed, TypeName);
    var es := ItemEntries(ids, types);
    SortByNameSorts(listed, TypeName);
    assert forall r :: r in xs <==> r in listed by {
      forall r ensures r in xs <==> r in listed {
        assert r in xs <==> r in multiset(xs);
      }
    }
    if |ids| > 0 {
      assert KeyedBy(es, xs, TypeName);
      forall k ensures HasKey(NodeItems(g, types), k) <==> exists r :: r in listed && TypeName(r) == k {
        ObjectKeys(es, xs, TypeName, k);
      }
      ObjectSorted(es, xs, TypeName);
      forall k, it | Lookup(NodeItems(g, types), k) == Some(it)
        ensures exists r :: r in listed && TypeName(r) == k && it == Item(r.id, r.name)
      {
        ObjectValue(es, k, it);
        var i :| 0 <= i < |es| && es[i] == (k, it);
        assert xs[i] in xs;
      }
    }
  }

  lemma {:induction false} NodeEntriesShape(groups: seq<Group>, types: seq<(Js, TypeRecord)>, rank: Js -> nat,
                                            cs: seq<Group>, bound: nat)
    requires Ranked(groups, rank)
    requires forall c :: c in cs ==> Live(groups, rank, c) && rank(c.id) < bound
    ensures KeyedBy(NodeEntries(groups, types, rank, cs, bound), cs, GroupName)
    ensures forall i :: 0 <= i < |cs| ==>
              NodeEntries(groups, types, rank, cs, bound)[i].1 == BuildGroupNode(groups, types, rank, cs[i])
    decreases |cs|
  {
    if cs != [] {
      NodeEntriesShape(groups, types, rank, cs[1..], bound);
    }
  }

  lemma {:induction false} RootEntriesShape(groups: seq<Group>, types: seq<(Js, TypeRecord)>, rank: Js -> nat,
                                            cs: seq<Group>)
    requires Ranked(groups, rank)
    requires forall c :: c in cs ==> Live(groups, rank, c)
    ensures KeyedBy(RootEntries(groups, types, rank, cs), cs, GroupName)
    ensures forall i :: 0 <= i < |cs| ==>
              RootEntries(groups, types, rank, cs)[i].1 == BuildGroupNode(groups, types, rank, cs[i])
    decreases |cs|
  {
    if cs != [] {
      RootEntriesShape(groups, types, rank, cs[1..]);
      var es := RootEntries(groups, types, rank, cs);
      var rest := RootEntries(groups, types, rank, cs[1..]);
      assert es == [(GroupName(cs[0]), BuildGroupNode(groups, types, rank, cs[0]))] + rest;
      forall i | 0 < i < |cs| ensures es[i] == rest[i - 1] && cs[i] == cs[1..][i - 1] {
      }
    }
  }


  /** No other child of `g` has the name of `c`. */
  predicate SoleChildNamed(groups: seq<Group>, g: Group, c: Group) {
    forall d :: d in groups && IsChildOf(d, g) && GroupName(d) == GroupName(c) ==> d == c
  }

  /**
   * A node copies its group's id and name and holds the group's items; its
   * subgroups are keyed by the names of exactly the groups whose parent is
   * `=== group.id`.
   */
  lemma SubgroupKeys(groups: seq<Group>, types: seq<(Js, TypeRecord)>, rank: Js -> nat, g: Group, k: string)
    requires Ranked(groups, rank) && Live(groups, rank, g)
    ensures var n := BuildGroupNode(groups, types, rank, g);
            n.id == g.id && n.name == g.name && n.items == NodeItems(g, types)
    ensures HasKey(BuildGroupNode(groups, types, rank, g).subgroups, k) <==>
            exists c :: c in groups && IsChildOf(c, g) && GroupName(c) == k
  {
    var cs := SortedChildren(groups, g);
    SortedChildrenSpec(groups, rank, g);
    NodeEntriesShape(groups, types, rank, cs, rank(g.id));
    ObjectKeys(NodeEntries(groups, types, rank, cs, rank(g.id)), cs, GroupName, k);
  }

  /** ... in name order. */
  lemma SubgroupsSorted(groups: seq<Group>, types: seq<(Js, TypeRecord)>, rank: Js -> nat, g: Group)
    requires Ranked(groups, rank) && Live(groups, rank, g)
    ensures SortedKeys(BuildGroupNode(groups, types, rank, g).subgroups, NameLe)
  {
    var cs := SortedChildren(groups, g);
    SortedChildrenSpec(groups, rank, g);
    NodeEntriesShape(groups, types, rank, cs, rank(g.id));
    ObjectSorted(NodeEntries(groups, types, rank, cs, rank(g.id)), cs, GroupName);
  }

  /** A child whose name no sibling shares is stored under its name as its own node. */
  lemma SubgroupValue(groups: seq<Group>, types: seq<(Js, TypeRecord)>, rank: Js -> nat, g: Group, c: Group)
    requires Ranked(groups, rank) && Live(groups, rank, g)
    requires c in groups && IsChildOf(c, g) && SoleChildNamed(groups, g, c)
    ensures Lookup(BuildGroupNode(groups, types, rank, g).subgroups, GroupName(c))
            == Some(BuildGroupNode(groups, types, rank, c))
  {
    var cs := SortedChildren(groups, g);
    SortedChildrenSpec(groups, rank, g);
    var es := NodeEntries(groups, types, rank, cs, rank(g.id));
    NodeEntriesShape(groups, types, rank, cs, rank(g.id));
    var m :| 0 <= m < |cs| && cs[m] == c;
    assert KeysOf(es)[m] == GroupName(c);
    var i := LastKeyed(es, GroupName(c));
    assert cs[i] in cs;
    PutAllLast([], es, i);
  }

  /** No other root has the name of `g`. */
  predicate SoleRootNamed(groups: seq<Group>, g: Group) {
    forall d :: d in groups && IsRoot(d) && GroupName(d) == GroupName(g) ==> d == g
  }

  /** The roots, sorted, are exactly the groups with a falsy `parent_group_id`. */
  lemma RootsMembers(groups: seq<Group>)
    ensures forall g :: g in Roots(groups) <==> g in groups && IsRoot(g)
    ensures SortedByName(Roots(groups), GroupName)
  {
    var roots := Filter(groups, IsRoot);
    var cs := Roots(groups);
    FilterMembers(groups, IsRoot);
    SortByNameSorts(roots, GroupName);
    forall c ensures c in cs <==> c in roots {
      assert c in cs <==> c in multiset(cs);
    }
  }

  /** The hierarchy is keyed by the names of exactly the groups with a falsy `parent_group_id`. */
  lemma RootKeys(groups: seq<Group>, types: seq<(Js, TypeRecord)>, rank: Js -> nat, k: string)
    requires Ranked(groups, rank)
    ensures HasKey(BuildHierarchy(groups, types, rank), k) <==> exists g :: g in groups && IsRoot(g) && GroupName(g) == k
  {
    var cs := Roots(groups);
    RootsMembers(groups);
    RootEntriesShape(groups, types, rank, cs);
    ObjectKeys(RootEntries(groups, types, rank, cs), cs, GroupName, k);
  }

  /** ... in name order. */
  lemma RootsSorted(groups: seq<Group>, types: seq<(Js, TypeRecord)>, rank: Js -> nat)
    requires Ranked(groups, rank)
    ensures SortedKeys(BuildHierarchy(groups, types, rank), NameLe)
  {
    var cs := Roots(groups);
    RootsMembers(groups);
    RootEntriesShape(groups, types, rank, cs);
    ObjectSorted(RootEntries(groups, types, rank, cs), cs, GroupName);
  }

  /** A root whose name no other root shares is stored under its name as its own node. */
  lemma RootValue(groups: seq<Group>, types: seq<(Js, TypeRecord)>, rank: Js -> nat, g: Group)
    requires Ranked(groups, rank) && Live(groups, rank, g) && IsRoot(g) && SoleRootNamed(groups, g)
    ensures Lookup(BuildHierarchy(groups, types, rank), GroupName(g)) == Some(BuildGroupNode(groups, types, rank, g))
  {
    var cs := Roots(groups);
    RootsMembers(groups);
    var es := RootEntries(groups, types, rank, cs);
    RootEntriesShape(groups, types, rank, cs);
    var m :| 0 <= m < |cs| && cs[m] == g;
    assert KeysOf(es)[m] == GroupName(g);
    var i := LastKeyed(es, GroupName(g));
    assert cs[i] in cs;
    PutAllLast([], es, i);
  }

  // ---------------------------------------------------------------------
  // The cache file: `{timestamp, data}`, reused while younger than a day
  // ---------------------------------------------------------------------

  const CacheMaxAge := 24 * 60 * 60 * 1000

  /** The largest time value a `Date` holds; `toISOString` throws beyond it. */
  const MaxTimeValue := 8_640_000_000_000_000

  /**
   * The number `timestamp` coerces to under `-` and `new Date`, for the
   * values the model follows: a number, `null` (0) and a boolean (0 or
   * 1).  `undefined` and an object give `NaN`; strings and arrays are
   * not followed and count as `NaN` here.
   */
  function TimestampValue(ts: Js): (r: Option<int>)
    ensures ts.Num? ==> r == Some(ts.n)
    ensures r.Some? ==> ts.Num? || ts.Null? || ts.Bool?
  {
    match ts
    case Num(n) => Some(n)
    case Null => Some(0)
    case Bool(b) => Some(if b then 1 else 0)
    case _ => None
  }

  /**
   * `loadCache()`: `file` is the parsed cache file, `None` when it is
   * missing or not JSON.  The cache is used only when caching is on,
   * `Date.now() - timestamp < maxAge`, and the log line's
   * `new Date(timestamp).toISOString()` does not throw, which needs a
   * timestamp within the `Date` range; an age of `NaN` is never below
   * the limit.
   */
  function LoadCache(useCache: bool, file: Option<Js>, now: int): (r: Option<Js>)
    ensures r.Some? ==> useCache && file == Some(r.value)
    ensures r.Some? ==> var t := TimestampValue(Get(r.value, "timestamp"));
                        t.Some? && now - t.value < CacheMaxAge && -MaxTimeValue <= t.value <= MaxTimeValue
  {
    if !useCache then None
    else match file
      case None => None
      case Some(c) =>
        match TimestampValue(Get(c, "timestamp"))
        case Some(ts) =>
          if now - ts < CacheMaxAge && -MaxTimeValue <= ts <= MaxTimeValue then Some(c) else None
        case None => None
  }

  /** `saveCache(data)`: the file written, if any. */
  function SaveCache(useCache: bool, now: int, data: Js): Option<Js> {
    if useCache then Some(Obj([("timestamp", Num(now)), ("data", data)])) else None
  }

  /**
   * A cache written at `written` (a `Date` time value) is reused at `now`
   * exactly when caching is on and less than a day has passed, and it then
   * hands back the data saved.
   */
  lemma CacheRoundTrip(useCache: bool, written: int, now: int, data: Js)
    ensures var r := LoadCache(useCache, SaveCache(useCache, written, data), now);
            && (r.Some? <==> useCache && now - written < CacheMaxAge && -MaxTimeValue <= written <= MaxTimeValue)
            && (r.Some? ==> Get(r.value, "data") == data)
  {
    var fields := [("timestamp", Num(written)), ("data", data)];
    assert Lookup(fields, "timestamp") == Some(Num(written));
    assert "timestamp" != "data" by {
      assert |"timestamp"| != |"data"|;
    }
    assert Lookup(fields, "data") == Some(data);
  }
}
