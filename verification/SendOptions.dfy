/**
 The option parser of `emails send` (src/cli-send.ts): single options take one value,
 multiple options greedily take every following value and may be given again.
 */
module SendOptions {
  import opened Wrappers
  import opened OptionScan

  /** Which options take one value and which take any number of them. */
  datatype Table = Table(singles: seq<string>, multiples: seq<string>)

  const SEND_OPTIONS: Table := Table(
    ["endpoint", "from", "html", "html-file", "idempotency-key", "scheduled-at", "subject", "template", "text",
     "text-file"],
    ["attachment", "bcc", "cc", "header", "reply-to", "tag", "to", "var"])

  predicate Distinct(names: seq<string>) {
    forall i, j :: 0 <= i < j < |names| ==> names[i] != names[j]
  }

  predicate ValidTable(table: Table) {
    && Distinct(table.singles)
    && Distinct(table.multiples)
    && forall i, j :: 0 <= i < |table.singles| && 0 <= j < |table.multiples| ==> table.singles[i] != table.multiples[j]
  }

  datatype Parsed = Parsed(singles: map<string, string>, multiples: map<string, seq<string>>)

  /** One occurrence of an option with the values it consumed. */
  datatype Group =
    | Single(name: string, value: string)
    | Multiple(name: string, values: seq<string>)

  function Add(parsed: Parsed, group: Group): Parsed {
    match group
    case Single(name, value) => parsed.(singles := parsed.singles[name := value])
    case Multiple(name, values) =>
      parsed.(multiples := parsed.multiples[
                name := (if name in parsed.multiples then parsed.multiples[name] else []) + values])
  }

  /** The maps that result from the groups in the given order. */
  function Meaning(groups: seq<Group>): Parsed {
    if groups == [] then Parsed(map[], map[])
    else Add(Meaning(groups[..|groups| - 1]), groups[|groups| - 1])
  }

  // ------------------------------------------------------- the specification

  /** The first position from `i` on that holds an option, or the end. */
  function NextOption(args: seq<string>, i: nat): (j: nat)
    requires i <= |args|
    ensures i <= j <= |args|
    ensures forall k :: i <= k < j ==> !IsOption(args[k])
    ensures j < |args| ==> IsOption(args[j])
    decreases |args| - i
  {
    if i == |args| || IsOption(args[i]) then i else NextOption(args, i + 1)
  }

  /** The option at position `i` and the position after its values, or None where the parser throws. */
  function ReadGroup(table: Table, args: seq<string>, i: nat): (r: Option<(Group, nat)>)
    requires i < |args|
    ensures r.Some? ==> i < r.value.1 <= |args|
  {
    if !IsOption(args[i]) then None
    else
      var name := args[i][2..];
      if name in table.singles then
        if i + 1 >= |args| || IsOption(args[i + 1]) then None
        else Some((Single(name, args[i + 1]), i + 2))
      else if name !in table.multiples then None
      else
        var j := NextOption(args, i + 1);
        if j == i + 1 then None else Some((Multiple(name, args[i + 1..j]), j))
  }

  function ReadFrom(table: Table, args: seq<string>, i: nat): Option<seq<Group>>
    decreases |args| - i
  {
    if i >= |args| then Some([])
    else
      match ReadGroup(table, args, i)
      case None => None
      case Some((group, j)) => Prefixed(group, ReadFrom(table, args, j))
  }

  function Prefixed(group: Group, rest: Option<seq<Group>>): Option<seq<Group>> {
    match rest
    case Some(groups) => Some([group] + groups)
    case None => None
  }

  predicate SinglesOnce(groups: seq<Group>) {
    forall i, j :: 0 <= i < j < |groups| && groups[i].Single? && groups[j].Single? ==> groups[i].name != groups[j].name
  }

  function Parse(table: Table, args: seq<string>): Option<Parsed> {
    match ReadFrom(table, args, 1)
    case None => None
    case Some(groups) => if SinglesOnce(groups) then Some(Meaning(groups)) else None
  }

  // -------------------------------------------------------------- the parser

  method ParseOptions(table: Table, args: seq<string>) returns (parsed: Option<Parsed>)
    ensures parsed == Parse(table, args)
  {
    var maps := Parsed(map[], map[]);
    ghost var done: seq<Group> := [];
    var index := 1;
    PrefixedAllNothing(ReadFrom(table, args, 1));
    while index < |args|
      invariant 1 <= index
      invariant Progress(table, args, index, done, maps)
      decreases |args| - index
    {
      if !IsOption(args[index]) {
        Stuck(table, args, index, done, maps);
        return None;
      }
      var name := args[index][2..];
      if name in table.singles {
        if name in maps.singles {
          Repeated(table, args, index, done, maps);
          return None;
        }
        if index + 1 >= |args| || IsOption(args[index + 1]) {
          Stuck(table, args, index, done, maps);
          return None;
        }
        ghost var group := Single(name, args[index + 1]);
        ProgressStep(table, args, index, done, maps, group, index + 2);
        maps := maps.(singles := maps.singles[name := args[index + 1]]);
        done := done + [group];
        index := index + 2;
      } else {
        if name !in table.multiples {
          Stuck(table, args, index, done, maps);
          return None;
        }
        var values, consumed := TakeValues(args, index, if name in maps.multiples then maps.multiples[name] else []);
        if consumed == 0 {
          Stuck(table, args, index, done, maps);
          return None;
        }
        ghost var group := Multiple(name, args[index + 1..index + 1 + consumed]);
        ProgressStep(table, args, index, done, maps, group, index + 1 + consumed);
        maps := maps.(multiples := maps.multiples[name := values]);
        done := done + [group];
        index := index + 1 + consumed;
      }
    }
    Finished(table, args, index, done, maps);
    parsed := Some(maps);
  }

  /** One more group has been read. */
  lemma ProgressStep(table: Table, args: seq<string>, index: nat, done: seq<Group>, maps: Parsed,
                     group: Group, next: nat)
    requires Progress(table, args, index, done, maps) && index < |args|
    requires ReadGroup(table, args, index) == Some((group, next))
    requires group.Single? ==> group.name !in maps.singles
    ensures Progress(table, args, next, done + [group], Add(maps, group))
  {
    Append(done, group, ReadFrom(table, args, next));
    ReadUnfolds(table, args, index, group, next);
  }

  /** No group can be read here. */
  lemma Stuck(table: Table, args: seq<string>, index: nat, done: seq<Group>, maps: Parsed)
    requires Progress(table, args, index, done, maps) && index < |args| && ReadGroup(table, args, index).None?
    ensures Parse(table, args).None?
  {
  }

  /** A single option comes for the second time. */
  lemma Repeated(table: Table, args: seq<string>, index: nat, done: seq<Group>, maps: Parsed)
    requires Progress(table, args, index, done, maps) && index < |args| && IsOption(args[index])
    requires args[index][2..] in table.singles && args[index][2..] in maps.singles
    ensures Parse(table, args).None?
  {
    DuplicateRefused(done, args[index][2..], ReadFrom(table, args, index));
  }

  lemma Finished(table: Table, args: seq<string>, index: nat, done: seq<Group>, maps: Parsed)
    requires Progress(table, args, index, done, maps) && index >= |args|
    ensures Parse(table, args) == Some(maps)
  {
    assert done + [] == done;
  }

  /** The greedy inner loop: every value up to the next option joins the earlier ones. */
  method TakeValues(args: seq<string>, index: nat, earlier: seq<string>) returns (values: seq<string>, consumed: nat)
    requires index < |args|
    ensures index + 1 + consumed == NextOption(args, index + 1)
    ensures values == earlier + args[index + 1..index + 1 + consumed]
  {
    values, consumed := earlier, 0;
    while index + consumed + 1 < |args| && !IsOption(args[index + consumed + 1])
      invariant index + consumed + 1 <= |args|
      invariant NextOption(args, index + 1) == NextOption(args, index + 1 + consumed)
      invariant values == earlier + args[index + 1..index + 1 + consumed]
      decreases |args| - consumed
    {
      values := values + [args[index + consumed + 1]];
      consumed := consumed + 1;
    }
  }

  ghost predicate Progress(table: Table, args: seq<string>, index: nat, done: seq<Group>, maps: Parsed) {
    && ReadFrom(table, args, 1) == PrefixedAll(done, ReadFrom(table, args, index))
    && maps == Meaning(done)
    && SinglesOnce(done)
  }

  function PrefixedAll(groups: seq<Group>, rest: Option<seq<Group>>): Option<seq<Group>> {
    match rest
    case Some(more) => Some(groups + more)
    case None => None
  }

  lemma PrefixedAllNothing(rest: Option<seq<Group>>)
    ensures PrefixedAll([], rest) == rest
  {
    if rest.Some? {
      assert [] + rest.value == rest.value;
    }
  }

  lemma SinglesNamed(groups: seq<Group>, name: string)
    ensures name in Meaning(groups).singles <==>
      exists i :: 0 <= i < |groups| && groups[i].Single? && groups[i].name == name
  {
    if groups != [] {
      var init, last := groups[..|groups| - 1], groups[|groups| - 1];
      SinglesNamed(init, name);
      if name in Meaning(init).singles {
        var i :| 0 <= i < |init| && init[i].Single? && init[i].name == name;
        assert groups[i] == init[i];
      } else if last.Single? && last.name == name {
        assert groups[|groups| - 1] == last;
      }
      forall i | 0 <= i < |groups| && groups[i].Single? && groups[i].name == name
        ensures name in Meaning(groups).singles
      {
        assert i < |init| ==> init[i] == groups[i];
      }
    }
  }

  lemma Append(done: seq<Group>, group: Group, rest: Option<seq<Group>>)
    requires SinglesOnce(done)
    requires group.Single? ==> group.name !in Meaning(done).singles
    ensures PrefixedAll(done, Prefixed(group, rest)) == PrefixedAll(done + [group], rest)
    ensures Meaning(done + [group]) == Add(Meaning(done), group)
    ensures SinglesOnce(done + [group])
  {
    if rest.Some? {
      assert done + ([group] + rest.value) == done + [group] + rest.value;
    }
    assert (done + [group])[..|done|] == done;
    SinglesNamed(done, group.name);
  }

  lemma DuplicateRefused(done: seq<Group>, name: string, rest: Option<seq<Group>>)
    requires name in Meaning(done).singles
    requires rest.Some? ==> rest.value != [] && rest.value[0].Single? && rest.value[0].name == name
    ensures rest.Some? ==> !SinglesOnce(done + rest.value)
  {
    SinglesNamed(done, name);
    if rest.Some? {
      var i :| 0 <= i < |done| && done[i].Single? && done[i].name == name;
      var all := done + rest.value;
      assert all[i] == done[i] && all[|done|] == rest.value[0];
    }
  }

  // ---------------------------------------------------------------- printing

  predicate WellFormedGroup(table: Table, group: Group) {
    match group
    case Single(name, value) => name in table.singles && !IsOption(value)
    case Multiple(name, values) =>
      name in table.multiples && values != [] && forall i :: 0 <= i < |values| ==> !IsOption(values[i])
  }

  predicate WellFormed(table: Table, groups: seq<Group>) {
    (forall i :: 0 <= i < |groups| ==> WellFormedGroup(table, groups[i])) && SinglesOnce(groups)
  }

  function PrintGroup(group: Group): (tokens: seq<string>)
    ensures tokens != [] && tokens[0] == Dashed(group.name)
  {
    match group
    case Single(name, value) => [Dashed(name), value]
    case Multiple(name, values) => [Dashed(name)] + values
  }

  function Print(groups: seq<Group>): seq<string> {
    if groups == [] then [] else PrintGroup(groups[0]) + Print(groups[1..])
  }

  lemma ReadGroupIsPrinted(table: Table, args: seq<string>, i: nat)
    requires i < |args| && ReadGroup(table, args, i).Some?
    ensures var (group, j) := ReadGroup(table, args, i).value;
      args[i..j] == PrintGroup(group) && WellFormedGroup(table, group)
  {
    var (group, j) := ReadGroup(table, args, i).value;
    assert args[i] == Dashed(args[i][2..]);
    assert args[i..j] == [args[i]] + args[i + 1..j];
  }

  lemma PrintStep(group: Group, rest: seq<Group>)
    ensures Print([group] + rest) == PrintGroup(group) + Print(rest)
  {
    assert ([group] + rest)[1..] == rest;
  }

  lemma ReadSplits(table: Table, args: seq<string>, i: nat) returns (group: Group, j: nat)
    requires i < |args| && ReadFrom(table, args, i).Some?
    ensures i < j <= |args| && ReadFrom(table, args, j).Some?
    ensures ReadFrom(table, args, i).value == [group] + ReadFrom(table, args, j).value
    ensures args[i..j] == PrintGroup(group) && WellFormedGroup(table, group)
  {
    var read := ReadGroup(table, args, i).value;
    group, j := read.0, read.1;
    ReadUnfolds(table, args, i, group, j);
    ReadGroupIsPrinted(table, args, i);
  }

  /** Whatever the parser accepts is the printed form of what it read. */
  lemma {:induction false} ReadIsPrinted(table: Table, args: seq<string>, i: nat)
    requires i <= |args| && ReadFrom(table, args, i).Some?
    ensures var groups := ReadFrom(table, args, i).value;
      args[i..] == Print(groups) && forall k :: 0 <= k < |groups| ==> WellFormedGroup(table, groups[k])
    decreases |args| - i
  {
    if i < |args| {
      var group, j := ReadSplits(table, args, i);
      ReadIsPrinted(table, args, j);
      PrintStep(group, ReadFrom(table, args, j).value);
      assert args[i..] == args[i..j] + args[j..];
    }
  }

  lemma {:induction false} NextOptionIs(args: seq<string>, i: nat, j: nat)
    requires i <= j <= |args|
    requires forall k :: i <= k < j ==> !IsOption(args[k])
    requires j < |args| ==> IsOption(args[j])
    ensures NextOption(args, i) == j
    decreases j - i
  {
    if i < j {
      NextOptionIs(args, i + 1, j);
    }
  }

  lemma ReadGroupOfPrinted(table: Table, args: seq<string>, i: nat, group: Group)
    requires ValidTable(table) && WellFormedGroup(table, group)
    requires i + |PrintGroup(group)| <= |args| && args[i..i + |PrintGroup(group)|] == PrintGroup(group)
    requires i + |PrintGroup(group)| < |args| ==> IsOption(args[i + |PrintGroup(group)|])
    ensures ReadGroup(table, args, i) == Some((group, i + |PrintGroup(group)|))
  {
    var tokens := PrintGroup(group);
    var j := i + |tokens|;
    assert forall k :: i <= k < j ==> args[k] == args[i..j][k - i] == tokens[k - i];
    assert args[i] == Dashed(group.name);
    if group.Multiple? {
      NextOptionIs(args, i + 1, j);
      assert args[i + 1..j] == group.values;
    }
  }

  lemma PrintedStart(groups: seq<Group>)
    requires groups != []
    ensures Print(groups) != [] && IsOption(Print(groups)[0])
  {
    assert Print(groups)[0] == PrintGroup(groups[0])[0] == Dashed(groups[0].name);
  }

  lemma Inserted(words: seq<string>, tokens: seq<string>, tail: seq<string>)
    ensures var args := words + tokens + tail; var j := |words| + |tokens|;
      args[|words|..j] == tokens && (j < |args| ==> tail != [] && args[j] == tail[0])
  {
  }

  lemma ReadFirst(table: Table, words: seq<string>, group: Group, rest: seq<Group>)
    requires ValidTable(table) && WellFormedGroup(table, group)
    ensures var args := words + PrintGroup(group) + Print(rest);
      ReadGroup(table, args, |words|) == Some((group, |words| + |PrintGroup(group)|))
  {
    Inserted(words, PrintGroup(group), Print(rest));
    if rest != [] {
      PrintedStart(rest);
    }
    ReadGroupOfPrinted(table, words + PrintGroup(group) + Print(rest), |words|, group);
  }

  lemma ReadUnfolds(table: Table, args: seq<string>, i: nat, group: Group, j: nat)
    requires i < |args| && ReadGroup(table, args, i) == Some((group, j))
    ensures ReadFrom(table, args, i) == Prefixed(group, ReadFrom(table, args, j))
  {
  }

  lemma ReadPrepends(table: Table, args: seq<string>, i: nat, group: Group, j: nat, rest: seq<Group>)
    requires i < |args| && ReadGroup(table, args, i) == Some((group, j)) && ReadFrom(table, args, j) == Some(rest)
    ensures ReadFrom(table, args, i) == Some([group] + rest)
  {
    ReadUnfolds(table, args, i, group, j);
  }

  lemma PrintAfter(words: seq<string>, group: Group, rest: seq<Group>)
    ensures words + Print([group] + rest) == words + PrintGroup(group) + Print(rest)
  {
    PrintStep(group, rest);
  }

  lemma ReadStep(table: Table, words: seq<string>, group: Group, rest: seq<Group>)
    requires ValidTable(table) && WellFormedGroup(table, group)
    requires ReadFrom(table, words + PrintGroup(group) + Print(rest), |words + PrintGroup(group)|) == Some(rest)
    ensures ReadFrom(table, words + Print([group] + rest), |words|) == Some([group] + rest)
  {
    ReadFirst(table, words, group, rest);
    PrintAfter(words, group, rest);
    ReadPrepends(table, words + PrintGroup(group) + Print(rest), |words|, group, |words + PrintGroup(group)|, rest);
  }

  lemma {:induction false} ReadOfPrinted(table: Table, words: seq<string>, groups: seq<Group>)
    requires ValidTable(table)
    requires forall i :: 0 <= i < |groups| ==> WellFormedGroup(table, groups[i])
    ensures ReadFrom(table, words + Print(groups), |words|) == Some(groups)
    decreases |groups|
  {
    if groups != [] {
      var group, rest := groups[0], groups[1..];
      ReadOfPrinted(table, words + PrintGroup(group), rest);
      ReadStep(table, words, group, rest);
      assert groups == [group] + rest;
    }
  }

  /** Printing well-formed groups after any command word and parsing gives their meaning. */
  lemma ParseOfPrinted(table: Table, command: string, groups: seq<Group>)
    requires ValidTable(table) && WellFormed(table, groups)
    ensures Parse(table, [command] + Print(groups)) == Some(Meaning(groups))
  {
    ReadOfPrinted(table, [command], groups);
  }

  // ----------------------------------------- order and grouping do not matter

  /** The value given to a single option. */
  function SingleOf(groups: seq<Group>, name: string): Option<string> {
    if groups == [] then None
    else
      var last := groups[|groups| - 1];
      if last.Single? && last.name == name then Some(last.value) else SingleOf(groups[..|groups| - 1], name)
  }

  /** The values given to a repeatable option, over all its occurrences. */
  function ValuesOf(groups: seq<Group>, name: string): seq<string> {
    if groups == [] then []
    else
      var last := groups[|groups| - 1];
      ValuesOf(groups[..|groups| - 1], name) + if last.Multiple? && last.name == name then last.values else []
  }

  ghost predicate SameContent(a: seq<Group>, b: seq<Group>) {
    && (forall name :: SingleOf(a, name) == SingleOf(b, name))
    && (forall name :: ValuesOf(a, name) == ValuesOf(b, name))
  }

  lemma {:induction false} MeaningIsContent(table: Table, groups: seq<Group>, name: string)
    requires forall i :: 0 <= i < |groups| ==> WellFormedGroup(table, groups[i])
    ensures var maps := Meaning(groups);
      && (if name in maps.singles then SingleOf(groups, name) == Some(maps.singles[name])
          else SingleOf(groups, name) == None)
      && (if name in maps.multiples then ValuesOf(groups, name) == maps.multiples[name] != []
          else ValuesOf(groups, name) == [])
  {
    if groups != [] {
      assert WellFormedGroup(table, groups[|groups| - 1]);
      MeaningIsContent(table, groups[..|groups| - 1], name);
    }
  }

  /**
   The parse depends only on each single option's value and each repeatable option's
   concatenated values: reordering options and regrouping values change nothing.
   */
  lemma RegroupingIsIrrelevant(table: Table, command: string, a: seq<Group>, command': string, b: seq<Group>)
    requires ValidTable(table) && WellFormed(table, a) && WellFormed(table, b) && SameContent(a, b)
    ensures Parse(table, [command] + Print(a)) == Parse(table, [command'] + Print(b)) == Some(Meaning(a))
  {
    ParseOfPrinted(table, command, a);
    ParseOfPrinted(table, command', b);
    SameMeaning(table, a, b);
  }

  lemma EqualMaps<V>(m: map<string, V>, n: map<string, V>)
    requires forall name :: (name in m <==> name in n) && (name in m ==> m[name] == n[name])
    ensures m == n
  {
  }

  lemma SameMeaning(table: Table, a: seq<Group>, b: seq<Group>)
    requires WellFormed(table, a) && WellFormed(table, b) && SameContent(a, b)
    ensures Meaning(a) == Meaning(b)
  {
    var m, n := Meaning(a), Meaning(b);
    forall name
      ensures (name in m.singles <==> name in n.singles) && (name in m.singles ==> m.singles[name] == n.singles[name])
      ensures name in m.multiples <==> name in n.multiples
      ensures name in m.multiples ==> m.multiples[name] == n.multiples[name]
    {
      MeaningIsContent(table, a, name);
      MeaningIsContent(table, b, name);
    }
    EqualMaps(m.singles, n.singles);
    EqualMaps(m.multiples, n.multiples);
  }

  lemma {:induction false} ContentAppends(a: seq<Group>, b: seq<Group>, name: string)
    ensures ValuesOf(a + b, name) == ValuesOf(a, name) + ValuesOf(b, name)
    ensures SingleOf(a + b, name) == if SingleOf(b, name).Some? then SingleOf(b, name) else SingleOf(a, name)
  {
    if b == [] {
      assert a + b == a;
    } else {
      var init, last := b[..|b| - 1], b[|b| - 1];
      ContentAppends(a, init, name);
      assert b == init + [last] && a + b == (a + init) + [last];
      LastGroup(init, last, name);
      LastGroup(a + init, last, name);
    }
  }

  /** Content is compositional, so a change in the middle is a change of the middle only. */
  lemma MiddleContent(left: seq<Group>, a: seq<Group>, b: seq<Group>, right: seq<Group>)
    requires SameContent(a, b)
    ensures SameContent(left + a + right, left + b + right)
  {
    forall name
      ensures ValuesOf(left + a + right, name) == ValuesOf(left + b + right, name)
      ensures SingleOf(left + a + right, name) == SingleOf(left + b + right, name)
    {
      ContentAppends(left + a, right, name);
      ContentAppends(left, a, name);
      ContentAppends(left + b, right, name);
      ContentAppends(left, b, name);
    }
  }

  /** Two neighbouring options with different names may change places. */
  lemma SwapKeepsContent(left: seq<Group>, x: Group, y: Group, right: seq<Group>)
    requires x.name != y.name
    ensures SameContent(left + [x, y] + right, left + [y, x] + right)
  {
    forall name
      ensures ValuesOf([x, y], name) == ValuesOf([y, x], name) && SingleOf([x, y], name) == SingleOf([y, x], name)
    {
      assert [x, y] == [x] + [y] && [y, x] == [y] + [x];
      ContentAppends([x], [y], name);
      ContentAppends([y], [x], name);
      assert x.name != name || y.name != name;
    }
    MiddleContent(left, [x, y], [y, x], right);
  }

  /** One occurrence with many values may be split into several. */
  lemma SplitKeepsContent(left: seq<Group>, name: string, u: seq<string>, v: seq<string>, right: seq<Group>)
    ensures SameContent(left + [Multiple(name, u + v)] + right, left + [Multiple(name, u), Multiple(name, v)] + right)
  {
    var joined, first, second := Multiple(name, u + v), Multiple(name, u), Multiple(name, v);
    forall n
      ensures ValuesOf([joined], n) == ValuesOf([first, second], n)
      ensures SingleOf([joined], n) == SingleOf([first, second], n)
    {
      assert [first, second] == [first] + [second];
      ContentAppends([first], [second], n);
    }
    MiddleContent(left, [joined], [first, second], right);
  }

  // ------------------------------------------------- printing a parse result

  function SinglesFrom(maps: Parsed, names: seq<string>): seq<Group> {
    if names == [] then []
    else
      SinglesFrom(maps, names[..|names| - 1]) +
      var name := names[|names| - 1];
      if name in maps.singles then [Single(name, maps.singles[name])] else []
  }

  function MultiplesFrom(maps: Parsed, names: seq<string>): seq<Group> {
    if names == [] then []
    else
      MultiplesFrom(maps, names[..|names| - 1]) +
      var name := names[|names| - 1];
      if name in maps.multiples then [Multiple(name, maps.multiples[name])] else []
  }

  /** Each option once, in a fixed order. */
  function Canonical(table: Table, maps: Parsed): seq<Group> {
    SinglesFrom(maps, table.singles) + MultiplesFrom(maps, table.multiples)
  }

  predicate FromSingles(maps: Parsed, names: seq<string>, group: Group) {
    group.Single? && group.name in names && group.name in maps.singles && group.value == maps.singles[group.name]
  }

  lemma {:induction false} SinglesFromShape(maps: Parsed, names: seq<string>)
    requires Distinct(names)
    ensures forall i :: 0 <= i < |SinglesFrom(maps, names)| ==> FromSingles(maps, names, SinglesFrom(maps, names)[i])
    ensures SinglesOnce(SinglesFrom(maps, names))
  {
    if names != [] {
      var init, last := names[..|names| - 1], names[|names| - 1];
      SinglesFromShape(maps, init);
      assert forall name :: name in names <==> name in init || name == last;
      assert last !in init;
      var before := SinglesFrom(maps, init);
      forall i | 0 <= i < |before|
        ensures FromSingles(maps, names, before[i]) && before[i].name != last
      {
        assert FromSingles(maps, init, before[i]);
      }
    }
  }

  lemma {:induction false} SinglesFromContent(maps: Parsed, names: seq<string>, name: string)
    requires Distinct(names)
    ensures ValuesOf(SinglesFrom(maps, names), name) == []
    ensures SingleOf(SinglesFrom(maps, names), name)
         == if name in names && name in maps.singles then Some(maps.singles[name]) else None
  {
    if names != [] {
      var init, last := names[..|names| - 1], names[|names| - 1];
      SinglesFromContent(maps, init, name);
      assert name in names <==> name in init || name == last;
      assert last !in init;
      if last in maps.singles {
        LastGroup(SinglesFrom(maps, init), Single(last, maps.singles[last]), name);
      } else {
        assert SinglesFrom(maps, names) == SinglesFrom(maps, init);
      }
    }
  }

  predicate FromMultiples(maps: Parsed, group: Group) {
    group.Multiple? && group.name in maps.multiples && group.values == maps.multiples[group.name]
  }

  lemma {:induction false} MultiplesFromShape(maps: Parsed, names: seq<string>)
    ensures forall i :: 0 <= i < |MultiplesFrom(maps, names)| ==> FromMultiples(maps, MultiplesFrom(maps, names)[i])
  {
    if names != [] {
      MultiplesFromShape(maps, names[..|names| - 1]);
    }
  }

  lemma LastGroup(before: seq<Group>, group: Group, name: string)
    ensures SingleOf(before + [group], name)
         == if group.Single? && group.name == name then Some(group.value) else SingleOf(before, name)
    ensures ValuesOf(before + [group], name)
         == ValuesOf(before, name) + if group.Multiple? && group.name == name then group.values else []
  {
    assert (before + [group])[..|before|] == before;
  }

  lemma {:induction false} MultiplesFromContent(maps: Parsed, names: seq<string>, name: string)
    requires Distinct(names)
    ensures SingleOf(MultiplesFrom(maps, names), name) == None
    ensures ValuesOf(MultiplesFrom(maps, names), name)
         == if name in names && name in maps.multiples then maps.multiples[name] else []
  {
    if names != [] {
      var init, last := names[..|names| - 1], names[|names| - 1];
      MultiplesFromContent(maps, init, name);
      assert name in names <==> name in init || name == last;
      assert last !in init;
      if last in maps.multiples {
        LastGroup(MultiplesFrom(maps, init), Multiple(last, maps.multiples[last]), name);
      } else {
        assert MultiplesFrom(maps, names) == MultiplesFrom(maps, init);
      }
    }
  }

  /** Maps whose entries the parser could have collected. */
  ghost predicate ParsedMaps(table: Table, maps: Parsed) {
    && (forall name :: name in maps.singles ==> WellFormedGroup(table, Single(name, maps.singles[name])))
    && (forall name :: name in maps.multiples ==> WellFormedGroup(table, Multiple(name, maps.multiples[name])))
  }

  lemma CanonicalWellFormed(table: Table, maps: Parsed)
    requires ValidTable(table) && ParsedMaps(table, maps)
    ensures WellFormed(table, Canonical(table, maps))
  {
    SinglesFromShape(maps, table.singles);
    MultiplesFromShape(maps, table.multiples);
    var singles, multiples := SinglesFrom(maps, table.singles), MultiplesFrom(maps, table.multiples);
    var canonical := singles + multiples;
    assert forall i :: |singles| <= i < |canonical| ==> FromMultiples(maps, canonical[i]);
    forall i | 0 <= i < |canonical|
      ensures WellFormedGroup(table, canonical[i])
    {
      if i < |singles| {
        assert FromSingles(maps, table.singles, singles[i]);
        assert canonical[i] == Single(singles[i].name, maps.singles[singles[i].name]);
      } else {
        var k := i - |singles|;
        assert FromMultiples(maps, multiples[k]);
        assert canonical[i] == Multiple(multiples[k].name, maps.multiples[multiples[k].name]);
      }
    }
  }

  lemma CanonicalContent(table: Table, maps: Parsed, name: string)
    requires ValidTable(table) && ParsedMaps(table, maps)
    ensures var groups := Canonical(table, maps);
      && SingleOf(groups, name) == (if name in maps.singles then Some(maps.singles[name]) else None)
      && ValuesOf(groups, name) == (if name in maps.multiples then maps.multiples[name] else [])
  {
    SinglesFromContent(maps, table.singles, name);
    MultiplesFromContent(maps, table.multiples, name);
    ContentAppends(SinglesFrom(maps, table.singles), MultiplesFrom(maps, table.multiples), name);
    assert name in maps.singles ==> WellFormedGroup(table, Single(name, maps.singles[name]));
    assert name in maps.multiples ==> WellFormedGroup(table, Multiple(name, maps.multiples[name]));
  }

  /** Printing a parse result and parsing it again gives the same maps. */
  lemma ParsePrintParse(table: Table, args: seq<string>, command: string)
    requires ValidTable(table) && Parse(table, args).Some?
    ensures Parse(table, [command] + Print(Canonical(table, Parse(table, args).value))) == Parse(table, args)
  {
    var groups := ReadFrom(table, args, 1).value;
    var maps := Meaning(groups);
    if args != [] {
      ReadIsPrinted(table, args, 1);
    }
    MeaningIsWellFormed(table, groups);
    CanonicalWellFormed(table, maps);
    forall name
      ensures SingleOf(Canonical(table, maps), name) == SingleOf(groups, name)
      ensures ValuesOf(Canonical(table, maps), name) == ValuesOf(groups, name)
    {
      CanonicalContent(table, maps, name);
      MeaningIsContent(table, groups, name);
    }
    RegroupingIsIrrelevant(table, command, Canonical(table, maps), command, groups);
    ParseOfPrinted(table, command, groups);
  }

  lemma {:induction false} MeaningIsWellFormed(table: Table, groups: seq<Group>)
    requires forall i :: 0 <= i < |groups| ==> WellFormedGroup(table, groups[i])
    ensures ParsedMaps(table, Meaning(groups))
  {
    if groups != [] {
      assert WellFormedGroup(table, groups[|groups| - 1]);
      MeaningIsWellFormed(table, groups[..|groups| - 1]);
    }
  }

  /** Length and first letter tell the options apart. */
  lemma SingleMarks()
    ensures |SEND_OPTIONS.singles| == 10
    ensures forall i :: 0 <= i < 10 ==>
      && |SEND_OPTIONS.singles[i]| == [8, 4, 4, 9, 15, 12, 7, 8, 4, 9][i]
      && SEND_OPTIONS.singles[i][0] == ['e', 'f', 'h', 'h', 'i', 's', 's', 't', 't', 't'][i]
  {
  }

  lemma MultipleMarks()
    ensures |SEND_OPTIONS.multiples| == 8
    ensures forall i :: 0 <= i < 8 ==>
      && |SEND_OPTIONS.multiples[i]| == [10, 3, 2, 6, 8, 3, 2, 3][i]
      && SEND_OPTIONS.multiples[i][0] == ['a', 'b', 'c', 'h', 'r', 't', 't', 'v'][i]
  {
  }

  /** Names with distinct marks are distinct. */
  lemma MarksDistinct(names: seq<string>, lengths: seq<nat>, letters: seq<char>)
    requires |names| == |lengths| == |letters|
    requires forall i :: 0 <= i < |names| ==> |names[i]| == lengths[i] && (|names[i]| > 0 ==> names[i][0] == letters[i])
    requires forall i, j :: 0 <= i < j < |names| ==>
      lengths[i] != lengths[j] || (lengths[i] > 0 && letters[i] != letters[j])
    ensures Distinct(names)
  {
  }

  lemma SinglesDistinct()
    ensures Distinct(SEND_OPTIONS.singles)
  {
    SingleMarks();
    MarksDistinct(SEND_OPTIONS.singles, [8, 4, 4, 9, 15, 12, 7, 8, 4, 9],
                  ['e', 'f', 'h', 'h', 'i', 's', 's', 't', 't', 't']);
  }

  lemma MultiplesDistinct()
    ensures Distinct(SEND_OPTIONS.multiples)
  {
    MultipleMarks();
    MarksDistinct(SEND_OPTIONS.multiples, [10, 3, 2, 6, 8, 3, 2, 3], ['a', 'b', 'c', 'h', 'r', 't', 't', 'v']);
  }

  lemma SendOptionsValid()
    ensures ValidTable(SEND_OPTIONS)
  {
    SinglesDistinct();
    MultiplesDistinct();
    SingleMarks();
    MultipleMarks();
    forall i, j | 0 <= i < 10 && 0 <= j < 8
      ensures SEND_OPTIONS.singles[i] != SEND_OPTIONS.multiples[j]
    {
      assert |SEND_OPTIONS.singles[i]| == |SEND_OPTIONS.multiples[j]| ==> j == 4;
    }
  }
}
