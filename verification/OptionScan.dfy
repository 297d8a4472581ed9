/**
 The argument scanners of the command-line tool (src/cli.ts). `validateOptions` walks
 the arguments once and skips the values it consumes; `flags`, `flag` and `hasFlag`
 later look at every argument again, without knowing which ones are values.
 */
module OptionScan {
  import opened Wrappers

  /** `argument.startsWith("--")` */
  predicate IsOption(argument: string) {
    |argument| >= 2 && argument[0] == '-' && argument[1] == '-'
  }

  function Dashed(name: string): (argument: string)
    ensures IsOption(argument) && argument[2..] == name
  {
    "--" + name
  }

  /** A value is refused when it is empty or looks like an option. */
  predicate Usable(value: string) {
    value != "" && !IsOption(value)
  }

  datatype Specification = Specification(
    values: set<string>,
    booleans: set<string>,
    repeatable: set<string>,
    positionals: nat)

  // ------------------------------------------------------- structured parse

  datatype Item =
    | Positional(argument: string)
    | Switch(name: string)
    | Valued(name: string, value: Option<string>)
  {
    predicate Names(n: string) {
      !Positional? && name == n
    }
  }

  /** The left-to-right reading of the arguments from position `i` on. */
  function Structured(args: seq<string>, i: nat, spec: Specification): seq<Item>
    decreases |args| - i
  {
    if i >= |args| then []
    else if !IsOption(args[i]) then [Positional(args[i])] + Structured(args, i + 1, spec)
    else if args[i][2..] in spec.booleans then [Switch(args[i][2..])] + Structured(args, i + 1, spec)
    else if i + 1 < |args| then [Valued(args[i][2..], Some(args[i + 1]))] + Structured(args, i + 2, spec)
    else [Valued(args[i][2..], None)]
  }

  predicate GoodItem(item: Item, spec: Specification) {
    item.Valued? ==>
      item.name in spec.values + spec.repeatable && item.value.Some? && Usable(item.value.value)
  }

  /** An option given twice must be a repeatable one. */
  predicate CompatibleItems(a: Item, b: Item, spec: Specification) {
    !a.Positional? && b.Names(a.name) ==> b.Valued? && b.name in spec.repeatable
  }

  function Positionals(items: seq<Item>): seq<string> {
    if items == [] then []
    else (if items[0].Positional? then [items[0].argument] else []) + Positionals(items[1..])
  }

  predicate GoodItems(items: seq<Item>, spec: Specification) {
    && (forall i :: 0 <= i < |items| ==> GoodItem(items[i], spec))
    && (forall i, j :: 0 <= i < j < |items| ==> CompatibleItems(items[i], items[j], spec))
  }

  predicate Accepted(items: seq<Item>, spec: Specification) {
    GoodItems(items, spec) && |Positionals(items)| == spec.positionals
  }

  /** The values the structured reading assigns to `name`, in order. */
  function Assigned(items: seq<Item>, name: string): seq<string> {
    if items == [] then []
    else (if items[0].Valued? && items[0].name == name && items[0].value.Some? then [items[0].value.value] else [])
         + Assigned(items[1..], name)
  }

  function First(values: seq<string>): Option<string> {
    if values == [] then None else Some(values[0])
  }

  function OptionNames(items: seq<Item>): set<string> {
    set i | 0 <= i < |items| && !items[i].Positional? :: items[i].name
  }

  // ---------------------------------------------------------- the scanners

  method ValidateOptions(args: seq<string>, spec: Specification) returns (ok: bool)
    ensures ok <==> Accepted(Structured(args, 1, spec), spec)
  {
    var seen: set<string> := {};
    var positionalCount := 0;
    var index := 1;
    ghost var all := Structured(args, 1, spec);
    ghost var done: seq<Item> := [];
    while index < |args|
      invariant 1 <= index
      invariant Scanned(all, done, Structured(args, index, spec), spec, seen, positionalCount)
      decreases |args| - index
    {
      var argument := args[index];
      ghost var rest := Structured(args, index, spec);
      if !IsOption(argument) {
        if positionalCount >= spec.positionals {
          ScanRefused(all, done, rest, spec, seen, positionalCount);
          return false;
        }
        ScanStep(all, done, rest, spec, seen, positionalCount);
        positionalCount := positionalCount + 1;
        index := index + 1;
      } else {
        var name := argument[2..];
        if name in spec.booleans {
          if name in seen {
            ScanRefused(all, done, rest, spec, seen, positionalCount);
            return false;
          }
          ScanStep(all, done, rest, spec, seen, positionalCount);
          seen := seen + {name};
          index := index + 1;
        } else {
          if name !in spec.values + spec.repeatable {
            ScanRefused(all, done, rest, spec, seen, positionalCount);
            return false;
          }
          if name in seen && name !in spec.repeatable {
            ScanRefused(all, done, rest, spec, seen, positionalCount);
            return false;
          }
          if index + 1 >= |args| || !Usable(args[index + 1]) {
            ScanRefused(all, done, rest, spec, seen, positionalCount);
            return false;
          }
          ScanStep(all, done, rest, spec, seen, positionalCount);
          seen := seen + {name};
          index := index + 2;
        }
      }
      done := done + [rest[0]];
    }
    assert all == done;
    ok := positionalCount >= spec.positionals;
  }

  /** `flags`: every argument after the first is compared, values included. */
  function FlagsFrom(args: seq<string>, name: string, i: nat): Option<seq<string>>
    decreases |args| - i
  {
    if i >= |args| then Some([])
    else if args[i] != Dashed(name) then FlagsFrom(args, name, i + 1)
    else if i + 1 >= |args| || !Usable(args[i + 1]) then None
    else Prepend([args[i + 1]], FlagsFrom(args, name, i + 1))
  }

  function Prepend(values: seq<string>, rest: Option<seq<string>>): Option<seq<string>> {
    match rest
    case Some(more) => Some(values + more)
    case None => None
  }

  method Flags(args: seq<string>, name: string) returns (values: Option<seq<string>>)
    ensures values == FlagsFrom(args, name, 1)
  {
    var collected: seq<string> := [];
    PrependNothing(FlagsFrom(args, name, 1));
    var index := 1;
    while index < |args|
      invariant 1 <= index
      invariant FlagsFrom(args, name, 1) == Prepend(collected, FlagsFrom(args, name, index))
    {
      if args[index] == Dashed(name) {
        if index + 1 >= |args| || !Usable(args[index + 1]) {
          return None;
        }
        ghost var rest := FlagsFrom(args, name, index + 1);
        if rest.Some? {
          assert collected + ([args[index + 1]] + rest.value) == collected + [args[index + 1]] + rest.value;
        }
        collected := collected + [args[index + 1]];
      }
      index := index + 1;
    }
    assert collected + [] == collected;
    values := Some(collected);
  }

  /** `flag`: None when the scan throws, otherwise the value or its absence. */
  function Flag(args: seq<string>, name: string): Option<Option<string>> {
    match FlagsFrom(args, name, 1)
    case None => None
    case Some(values) =>
      if |values| > 1 then None else Some(First(values))
  }

  predicate HasFlag(args: seq<string>, name: string) {
    Dashed(name) in args
  }

  /** `positional`: the argument at a fixed index, or a refusal. */
  function PositionalAt(args: seq<string>, index: nat): Option<string> {
    if index < |args| && Usable(args[index]) then Some(args[index]) else None
  }

  // ----------------------------------------------------------------- proofs

  lemma PrependNothing(rest: Option<seq<string>>)
    ensures Prepend([], rest) == rest
  {
    if rest.Some? {
      assert [] + rest.value == rest.value;
    }
  }

  lemma {:induction false} PositionalsAppend(a: seq<Item>, b: seq<Item>)
    ensures Positionals(a + b) == Positionals(a) + Positionals(b)
  {
    if a == [] {
      assert a + b == b;
    } else {
      assert (a + b)[1..] == a[1..] + b;
      PositionalsAppend(a[1..], b);
    }
  }

  /** What the loop of `validateOptions` knows after reading `done`. */
  ghost predicate Scanned(all: seq<Item>, done: seq<Item>, rest: seq<Item>, spec: Specification,
                          seen: set<string>, positionalCount: nat)
  {
    && all == done + rest
    && GoodItems(done, spec)
    && seen == OptionNames(done)
    && positionalCount == |Positionals(done)| <= spec.positionals
  }

  /** The three reasons to stop at an item. */
  predicate Offends(item: Item, spec: Specification, seen: set<string>, positionalCount: nat) {
    || !GoodItem(item, spec)
    || (item.Positional? && positionalCount >= spec.positionals)
    || (!item.Positional? && item.name in seen && (item.Switch? || item.name !in spec.repeatable))
  }

  lemma ScanStep(all: seq<Item>, done: seq<Item>, rest: seq<Item>, spec: Specification,
                 seen: set<string>, positionalCount: nat)
    requires Scanned(all, done, rest, spec, seen, positionalCount)
    requires rest != [] && !Offends(rest[0], spec, seen, positionalCount)
    ensures Scanned(all, done + [rest[0]], rest[1..], spec,
                    if rest[0].Positional? then seen else seen + {rest[0].name},
                    if rest[0].Positional? then positionalCount + 1 else positionalCount)
  {
    var item := rest[0];
    var more := done + [item];
    assert more + rest[1..] == done + rest;
    forall i, j | 0 <= i < j < |more|
      ensures CompatibleItems(more[i], more[j], spec)
    {
      if j == |done| && !more[i].Positional? {
        assert more[i].name in OptionNames(done);
      }
    }
    OptionNamesAppend(done, item);
    PositionalsAppend(done, [item]);
  }

  lemma ScanRefused(all: seq<Item>, done: seq<Item>, rest: seq<Item>, spec: Specification,
                    seen: set<string>, positionalCount: nat)
    requires Scanned(all, done, rest, spec, seen, positionalCount)
    requires rest != [] && Offends(rest[0], spec, seen, positionalCount)
    ensures !Accepted(all, spec)
  {
    var item := rest[0];
    assert all[|done|] == item;
    if item.Positional? {
      PositionalsAppend(done, rest);
    } else if GoodItem(item, spec) {
      var i :| 0 <= i < |done| && !done[i].Positional? && done[i].name == item.name;
      assert all[i] == done[i];
      assert !CompatibleItems(all[i], all[|done|], spec);
    }
  }

  lemma OptionNamesAppend(done: seq<Item>, item: Item)
    ensures OptionNames(done + [item]) == OptionNames(done) + if item.Positional? then {} else {item.name}
  {
    var more := done + [item];
    forall name | name in OptionNames(done) || item.Names(name)
      ensures name in OptionNames(more)
    {
      var i := if item.Names(name) then |done| else
        (var k :| 0 <= k < |done| && !done[k].Positional? && done[k].name == name; k);
      assert !more[i].Positional? && more[i].name == name;
    }
  }

  /** An option name never equals the text of a value, so a rescan cannot be misled by one. */
  lemma {:induction false} FlagsReadItems(args: seq<string>, i: nat, spec: Specification, name: string)
    requires forall k :: 0 <= k < |Structured(args, i, spec)| ==> GoodItem(Structured(args, i, spec)[k], spec)
    requires name !in spec.booleans
    ensures FlagsFrom(args, name, i) == Some(Assigned(Structured(args, i, spec), name))
    decreases |args| - i
  {
    if i < |args| {
      var items := Structured(args, i, spec);
      assert GoodItem(items[0], spec);
      if IsOption(args[i]) && args[i][2..] !in spec.booleans {
        assert items[0].value.Some?;
        assert items[1..] == Structured(args, i + 2, spec);
        assert forall k :: 0 <= k < |items[1..]| ==> items[1..][k] == items[k + 1];
        FlagsReadItems(args, i + 2, spec, name);
        assert args[i + 1] != Dashed(name);
        assert FlagsFrom(args, name, i + 1) == FlagsFrom(args, name, i + 2);
        assert args[i] == Dashed(args[i][2..]);
        if args[i] == Dashed(name) {
          assert Assigned(items, name) == [args[i + 1]] + Assigned(items[1..], name);
        } else {
          assert Assigned(items, name) == Assigned(items[1..], name);
        }
      } else {
        assert items[1..] == Structured(args, i + 1, spec);
        assert forall k :: 0 <= k < |items[1..]| ==> items[1..][k] == items[k + 1];
        FlagsReadItems(args, i + 1, spec, name);
        assert Assigned(items, name) == Assigned(items[1..], name);
        assert IsOption(args[i]) ==> args[i] == Dashed(args[i][2..]);
      }
    }
  }

  lemma {:induction false} MentionsReadItems(args: seq<string>, i: nat, spec: Specification, name: string)
    requires i <= |args|
    requires forall k :: 0 <= k < |Structured(args, i, spec)| ==> GoodItem(Structured(args, i, spec)[k], spec)
    ensures Dashed(name) in args[i..] <==> name in OptionNames(Structured(args, i, spec))
    decreases |args| - i
  {
    if i < |args| {
      var items := Structured(args, i, spec);
      assert GoodItem(items[0], spec);
      var next := if IsOption(args[i]) && args[i][2..] !in spec.booleans then i + 2 else i + 1;
      assert items[1..] == Structured(args, next, spec);
      assert forall k :: 0 <= k < |items[1..]| ==> items[1..][k] == items[k + 1];
      MentionsReadItems(args, next, spec, name);
      assert IsOption(args[i]) ==> args[i] == Dashed(args[i][2..]);
      assert args[i..] == args[i..next] + args[next..];
      assert Dashed(name) in args[i..next] <==> args[i] == Dashed(name);
      OptionNamesPrepend(items[0], items[1..]);
      assert items == [items[0]] + items[1..];
    }
  }

  lemma OptionNamesPrepend(item: Item, rest: seq<Item>)
    ensures OptionNames([item] + rest) == (if item.Positional? then {} else {item.name}) + OptionNames(rest)
  {
    var more := [item] + rest;
    forall name | name in OptionNames(rest) || item.Names(name)
      ensures name in OptionNames(more)
    {
      var i := if item.Names(name) then 0 else
        (var k :| 0 <= k < |rest| && !rest[k].Positional? && rest[k].name == name; k + 1);
      assert !more[i].Positional? && more[i].name == name;
    }
    forall i | 0 <= i < |more| && !more[i].Positional?
      ensures item.Names(more[i].name) || more[i].name in OptionNames(rest)
    {
      assert i > 0 ==> more[i] == rest[i - 1];
    }
  }

  lemma GoodRest(items: seq<Item>, spec: Specification)
    requires items != [] && GoodItems(items, spec)
    ensures GoodItems(items[1..], spec)
  {
    var rest := items[1..];
    forall i | 0 <= i < |rest|
      ensures GoodItem(rest[i], spec)
    {
      assert rest[i] == items[i + 1];
    }
    forall i, j | 0 <= i < j < |rest|
      ensures CompatibleItems(rest[i], rest[j], spec)
    {
      assert CompatibleItems(items[i + 1], items[j + 1], spec);
    }
  }

  /** A name that may not repeat is assigned at most once. */
  lemma {:induction false} AssignedOnce(items: seq<Item>, spec: Specification, name: string)
    requires GoodItems(items, spec) && name !in spec.repeatable
    ensures |Assigned(items, name)| <= 1
    ensures name !in OptionNames(items) ==> Assigned(items, name) == []
  {
    if items != [] {
      var rest := items[1..];
      GoodRest(items, spec);
      AssignedOnce(rest, spec, name);
      assert items == [items[0]] + rest;
      OptionNamesPrepend(items[0], rest);
      if items[0].Names(name) {
        forall k | 0 <= k < |rest|
          ensures !rest[k].Names(name)
        {
          assert CompatibleItems(items[0], items[k + 1], spec);
        }
      }
    }
  }

  /**
   For every accepted argument list the later whole-list scans do not throw and return
   what the structured reading assigned. `hasFlag` also looks at the command word itself,
   which `validateOptions` never does.
   */
  lemma ScansAgree(args: seq<string>, spec: Specification, name: string)
    requires Accepted(Structured(args, 1, spec), spec)
    ensures var items := Structured(args, 1, spec);
      && (name !in spec.booleans ==> FlagsFrom(args, name, 1) == Some(Assigned(items, name)))
      && (name !in spec.booleans && name !in spec.repeatable ==>
            Flag(args, name) == Some(First(Assigned(items, name))))
      && (HasFlag(args, name) <==> name in OptionNames(items) || (args != [] && args[0] == Dashed(name)))
  {
    var items := Structured(args, 1, spec);
    if name !in spec.booleans {
      FlagsReadItems(args, 1, spec, name);
      if name !in spec.repeatable {
        AssignedOnce(items, spec, name);
      }
    }
    if args != [] {
      MentionsReadItems(args, 1, spec, name);
      assert args == [args[0]] + args[1..];
    }
  }

  lemma {:induction false} LeadingPositionals(args: seq<string>, i: nat, n: nat, spec: Specification)
    requires i + n <= |args|
    requires forall j :: i <= j < i + n ==> Usable(args[j])
    ensures Positionals(Structured(args, i, spec)) == args[i..i + n] + Positionals(Structured(args, i + n, spec))
    decreases n
  {
    if n > 0 {
      LeadingPositionals(args, i + 1, n - 1, spec);
      LeadingPositional(args, i, spec);
      FrontOf(args, i, n, Positionals(Structured(args, i + n, spec)));
    }
  }

  lemma LeadingPositional(args: seq<string>, i: nat, spec: Specification)
    requires i < |args| && !IsOption(args[i])
    ensures Positionals(Structured(args, i, spec)) == [args[i]] + Positionals(Structured(args, i + 1, spec))
  {
    assert Structured(args, i, spec)[1..] == Structured(args, i + 1, spec);
  }

  lemma FrontOf(args: seq<string>, i: nat, n: nat, rest: seq<string>)
    requires 0 < n && i + n <= |args|
    ensures [args[i]] + (args[i + 1..i + n] + rest) == args[i..i + n] + rest
  {
  }

  /** When fixed-index reads succeed at 1..k they are the k structured positionals, in order. */
  lemma PositionalsByIndex(args: seq<string>, spec: Specification)
    requires Accepted(Structured(args, 1, spec), spec)
    requires forall j :: 1 <= j <= spec.positionals ==> PositionalAt(args, j).Some?
    ensures Positionals(Structured(args, 1, spec))
         == seq(spec.positionals, j requires 0 <= j < spec.positionals => PositionalAt(args, j + 1).value)
  {
    var k := spec.positionals;
    if k > 0 {
      assert PositionalAt(args, k).Some?;
      forall j | 1 <= j < 1 + k
        ensures Usable(args[j])
      {
        assert PositionalAt(args, j).Some?;
      }
      LeadingPositionals(args, 1, k, spec);
      assert Positionals(Structured(args, 1, spec)) == args[1..1 + k];
    }
  }

  // ------------------------------------------- the scanners on any argument list

  /** A value that an option may take. */
  predicate PlainValue(value: string) {
    |value| > 0 && !(|value| >= 2 && value[..2] == "--")
  }

  lemma UsableExactly(value: string)
    ensures Usable(value) <==> PlainValue(value)
  {
    if |value| >= 2 {
      assert value[..2] == [value[0], value[1]];
      assert "--"[0] == '-' && "--"[1] == '-';
    }
  }

  predicate SameOption(a: Item, b: Item) {
    !a.Positional? && !b.Positional? && a.name == b.name
  }

  /** What is accepted: known options with plain values, single ones once, and the right number of positionals. */
  lemma AcceptedMeans(items: seq<Item>, spec: Specification)
    ensures Accepted(items, spec) <==>
      && (forall i :: 0 <= i < |items| && items[i].Valued? ==>
            && (items[i].name in spec.values || items[i].name in spec.repeatable)
            && items[i].value.Some? && PlainValue(items[i].value.value))
      && (forall i, j :: 0 <= i < j < |items| && SameOption(items[i], items[j]) ==>
            items[j].Valued? && items[j].name in spec.repeatable)
      && |Positionals(items)| == spec.positionals
  {
    forall i | 0 <= i < |items| && items[i].Valued? && items[i].value.Some?
      ensures Usable(items[i].value.value) <==> PlainValue(items[i].value.value)
    {
      UsableExactly(items[i].value.value);
    }
    if Accepted(items, spec) {
      assert forall i :: 0 <= i < |items| ==> GoodItem(items[i], spec);
      assert forall i, j :: 0 <= i < j < |items| ==> CompatibleItems(items[i], items[j], spec);
    }
  }

  /** Where an option stands from position `i` on. */
  function Places(args: seq<string>, name: string, i: nat): seq<nat>
    decreases |args| - i
  {
    if i >= |args| then []
    else if args[i] == "--" + name then [i] + Places(args, name, i + 1)
    else Places(args, name, i + 1)
  }

  predicate StandsAt(args: seq<string>, name: string, p: nat) {
    p < |args| && args[p] == "--" + name
  }

  /** Places of the option from `i` on, in order. */
  predicate InOrder(args: seq<string>, name: string, i: nat, places: seq<nat>) {
    && (forall k :: 0 <= k < |places| ==> i <= places[k] && StandsAt(args, name, places[k]))
    && (forall j, k :: 0 <= j < k < |places| ==> places[j] < places[k])
  }

  lemma {:induction false} PlacesInOrder(args: seq<string>, name: string, i: nat)
    ensures InOrder(args, name, i, Places(args, name, i))
    decreases |args| - i
  {
    if i < |args| {
      PlacesInOrder(args, name, i + 1);
      InOrderMore(args, name, i, Places(args, name, i + 1));
    }
  }

  lemma InOrderMore(args: seq<string>, name: string, i: nat, rest: seq<nat>)
    requires InOrder(args, name, i + 1, rest)
    ensures InOrder(args, name, i, rest)
    ensures StandsAt(args, name, i) ==> InOrder(args, name, i, [i] + rest)
  {
  }

  /** No place is missing. */
  lemma {:induction false} PlacesComplete(args: seq<string>, name: string, i: nat, p: nat)
    requires i <= p && StandsAt(args, name, p)
    ensures p in Places(args, name, i)
    decreases p - i
  {
    if i < p {
      PlacesComplete(args, name, i + 1, p);
    }
  }

  /** Every place is followed by a plain value. */
  predicate Followed(args: seq<string>, places: seq<nat>) {
    forall k :: 0 <= k < |places| ==> places[k] + 1 < |args| && PlainValue(args[places[k] + 1])
  }

  /** These are the plain values that follow the places, in order. */
  predicate Taken(args: seq<string>, places: seq<nat>, values: seq<string>) {
    && |values| == |places| && Followed(args, places)
    && forall k :: 0 <= k < |places| ==> values[k] == args[places[k] + 1]
  }

  /**
   On any argument list `flags` returns, in order, the arguments that follow the option, and
   throws exactly when one of them is missing, empty or looks like an option.
   */
  lemma {:induction false} FlagsExactly(args: seq<string>, name: string, i: nat)
    ensures var places := Places(args, name, i);
      match FlagsFrom(args, name, i)
      case Some(values) => Taken(args, places, values)
      case None => !Followed(args, places)
    decreases |args| - i
  {
    if i < |args| {
      FlagsExactly(args, name, i + 1);
      if args[i] == "--" + name {
        FlagsHit(args, name, i);
      }
    }
  }

  lemma FlagsHit(args: seq<string>, name: string, i: nat)
    requires i < |args| && args[i] == "--" + name
    requires match FlagsFrom(args, name, i + 1)
             case Some(values) => Taken(args, Places(args, name, i + 1), values)
             case None => !Followed(args, Places(args, name, i + 1))
    ensures match FlagsFrom(args, name, i)
            case Some(values) => Taken(args, Places(args, name, i), values)
            case None => !Followed(args, Places(args, name, i))
  {
    var rest := Places(args, name, i + 1);
    assert Places(args, name, i) == [i] + rest;
    FollowedMore(args, i, rest);
    if i + 1 < |args| {
      UsableExactly(args[i + 1]);
    }
  }

  lemma FollowedMore(args: seq<string>, i: nat, rest: seq<nat>)
    ensures Followed(args, [i] + rest) <==> i + 1 < |args| && PlainValue(args[i + 1]) && Followed(args, rest)
  {
    var all := [i] + rest;
    assert forall k :: 0 <= k < |rest| ==> all[k + 1] == rest[k];
    if Followed(args, all) {
      assert all[0] == i;
    }
  }

  /** `flag` gives the value after the one place of the option, nothing if there is none, and throws otherwise. */
  lemma FlagExactly(args: seq<string>, name: string)
    ensures var places := Places(args, name, 1);
      && (Flag(args, name) == Some(None) <==> places == [])
      && (Flag(args, name).Some? <==> |places| <= 1 && Followed(args, places))
      && (|places| == 1 && Followed(args, places) ==> Flag(args, name) == Some(Some(args[places[0] + 1])))
  {
    FlagsExactly(args, name, 1);
  }

  /** `positional` gives the argument at its place if it is a plain one, and throws otherwise. */
  lemma PositionalExactly(args: seq<string>, index: nat)
    ensures PositionalAt(args, index).Some? <==> index < |args| && PlainValue(args[index])
    ensures PositionalAt(args, index).Some? ==> PositionalAt(args, index).value == args[index]
  {
    if index < |args| {
      UsableExactly(args[index]);
    }
  }

  // ------------------------------------------------------ printing arguments

  function PrintItem(item: Item): seq<string> {
    match item
    case Positional(argument) => [argument]
    case Switch(name) => [Dashed(name)]
    case Valued(name, None) => [Dashed(name)]
    case Valued(name, Some(value)) => [Dashed(name), value]
  }

  function PrintItems(items: seq<Item>): seq<string> {
    if items == [] then [] else PrintItem(items[0]) + PrintItems(items[1..])
  }

  predicate Printable(item: Item, spec: Specification) {
    match item
    case Positional(argument) => !IsOption(argument)
    case Switch(name) => name in spec.booleans
    case Valued(name, value) => name !in spec.booleans && value.Some?
  }

  /** Printed items read back as the same items, wherever the command words end. */
  lemma {:induction false} StructuredOfPrinted(words: seq<string>, items: seq<Item>, spec: Specification)
    requires forall i :: 0 <= i < |items| ==> Printable(items[i], spec)
    ensures Structured(words + PrintItems(items), |words|, spec) == items
    decreases |items|
  {
    var args := words + PrintItems(items);
    if items != [] {
      var more := words + PrintItem(items[0]);
      assert Printable(items[0], spec);
      assert args == more + PrintItems(items[1..]);
      StructuredOfPrinted(more, items[1..], spec);
      assert items == [items[0]] + items[1..];
      assert args[|words|] == PrintItem(items[0])[0];
      if items[0].Valued? {
        assert args[|words| + 1] == items[0].value.value;
      }
    }
  }
}
