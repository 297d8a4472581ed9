/**
 Replacing marker lines in a text, one marker after the other. A marker must occur exactly
 once when its turn comes, and no trace of any marker may be left at the end.
 */
module MarkerRewrite {
  import opened Wrappers

  /** A marker and the text that takes its place. */
  datatype Edit = Edit(marker: string, block: string)

  // ------------------------------------------------------------ string search

  predicate At(s: string, p: int, m: string) {
    0 <= p <= |s| - |m| && s[p..p + |m|] == m
  }

  /** The first occurrence from position `i` on. */
  function FindFrom(s: string, m: string, i: nat): (r: Option<nat>)
    requires i <= |s|
    ensures r.Some? ==> i <= r.value && At(s, r.value, m) && forall q :: i <= q < r.value ==> !At(s, q, m)
    ensures r.None? ==> forall q :: i <= q ==> !At(s, q, m)
    decreases |s| - i
  {
    if At(s, i, m) then Some(i)
    else if i == |s| then None
    else FindFrom(s, m, i + 1)
  }

  /** One less than the number of parts that `s.split(m)` yields. */
  function Count(s: string, m: string, i: nat): nat
    requires m != "" && i <= |s|
    decreases |s| - i
  {
    match FindFrom(s, m, i)
    case None => 0
    case Some(p) => 1 + Count(s, m, p + |m|)
  }

  predicate Contains(s: string, m: string) {
    FindFrom(s, m, 0).Some?
  }

  // --------------------------------------------------------------- rewriting

  /** A comment line: the newline and the hash sign occur once each, and the tag is inside. */
  predicate LineMarker(m: string, tag: string) {
    && |m| > 8 && m[6] == '#' && m[|m| - 1] == '\n'
    && (forall i :: 0 <= i < |m| - 1 ==> m[i] != '\n')
    && (forall i :: 0 <= i < |m| ==> (m[i] == '#' <==> i == 6))
    && At(m, 8, tag)
  }

  predicate ValidEdits(edits: seq<Edit>, tag: string) {
    && (forall i :: 0 <= i < |edits| ==> LineMarker(edits[i].marker, tag))
    && (forall i, j :: 0 <= i < j < |edits| ==> edits[i].marker != edits[j].marker)
  }

  function Replaced(s: string, p: nat, edit: Edit): string
    requires At(s, p, edit.marker)
  {
    s[..p] + edit.block + s[p + |edit.marker|..]
  }

  /** One round of the loop: exactly one marker must be there, and it is replaced. */
  function Step(s: string, edit: Edit): Option<string>
    requires edit.marker != ""
  {
    if Count(s, edit.marker, 0) != 1 then None
    else Some(Replaced(s, FindFrom(s, edit.marker, 0).value, edit))
  }

  /** The loop over `order`, then the check that no tag is left. */
  function Rewrite(s: string, order: seq<Edit>, tag: string): Option<string>
    requires ValidEdits(order, tag)
    decreases |order|
  {
    if order == [] then if Contains(s, tag) then None else Some(s)
    else
      match Step(s, order[0])
      case None => None
      case Some(s') => Rewrite(s', order[1..], tag)
  }

  method RewriteMarkers(source: string, order: seq<Edit>, tag: string) returns (rendered: Option<string>)
    requires ValidEdits(order, tag)
    ensures rendered == Rewrite(source, order, tag)
  {
    var text := source;
    for i := 0 to |order|
      invariant ValidEdits(order[i..], tag)
      invariant Rewrite(source, order, tag) == Rewrite(text, order[i..], tag)
    {
      assert order[i..][0] == order[i] && order[i..][1..] == order[i + 1..];
      assert LineMarker(order[i].marker, tag);
      if Count(text, order[i].marker, 0) != 1 {
        return None;
      }
      text := Replaced(text, FindFrom(text, order[i].marker, 0).value, order[i]);
    }
    rendered := if Contains(text, tag) then None else Some(text);
  }

  // ------------------------------------------------------ occurrences of markers

  /** Two marker occurrences are the same or do not overlap: a newline ends each one. */
  lemma MarkersApart(s: string, p: int, m: string, q: int, n: string, tag: string)
    requires LineMarker(m, tag) && LineMarker(n, tag)
    requires At(s, p, m) && At(s, q, n)
    ensures (p == q && m == n) || p + |m| <= q || q + |n| <= p
  {
    if p < q + |n| && q < p + |m| {
      assert forall i :: p <= i < p + |m| ==> s[i] == s[p..p + |m|][i - p] == m[i - p];
      assert forall i :: q <= i < q + |n| ==> s[i] == s[q..q + |n|][i - q] == n[i - q];
      assert s[p + |m| - 1] == '\n' && s[q + |n| - 1] == '\n';
      assert p + |m| == q + |n|;
      assert s[p + 6] == '#' && s[q + 6] == '#';
    }
  }

  /** There is one occurrence and no other. */
  ghost predicate Unique(s: string, p: int, m: string) {
    At(s, p, m) && forall q :: At(s, q, m) ==> q == p
  }

  /** Splitting into two parts means a unique occurrence. */
  lemma CountsOnce(s: string, m: string, tag: string)
    requires LineMarker(m, tag)
    ensures Count(s, m, 0) == 1 <==> FindFrom(s, m, 0).Some? && Unique(s, FindFrom(s, m, 0).value, m)
  {
    var first := FindFrom(s, m, 0);
    if first.Some? {
      var p := first.value;
      var second := FindFrom(s, m, p + |m|);
      if second.None? {
        forall q | At(s, q, m)
          ensures q == p
        {
          MarkersApart(s, p, m, q, m, tag);
        }
      } else {
        assert Count(s, m, p + |m|) >= 1;
        assert At(s, second.value, m) && second.value != p;
      }
    }
  }

  /** An occurrence beside the replaced one is still there afterwards. */
  lemma OccurrenceStays(s: string, p: nat, edit: Edit, q: int, m: string)
    requires At(s, p, edit.marker) && At(s, q, m) && m != ""
    requires p + |edit.marker| <= q || q + |m| <= p
    ensures var shift := if q < p then 0 else |edit.block| - |edit.marker|;
      At(Replaced(s, p, edit), q + shift, m)
  {
    var s' := Replaced(s, p, edit);
    if q + |m| <= p {
      assert s'[q..q + |m|] == s[q..q + |m|];
    } else {
      var q' := q + |edit.block| - |edit.marker|;
      assert s'[q'..q' + |m|] == s[q..q + |m|];
    }
  }

  /** Where an occurrence is found after another one has been replaced. */
  function Shifted(p: nat, x: Edit, q: int): int {
    if q < p then q else q + |x.block| - |x.marker|
  }

  /** Replacing one marker keeps every other occurrence of a marker. */
  lemma Stays(s: string, p: nat, x: Edit, q: int, m: string, tag: string)
    requires LineMarker(x.marker, tag) && LineMarker(m, tag)
    requires At(s, p, x.marker) && At(s, q, m) && (q != p || m != x.marker)
    ensures p + |x.marker| <= q || q + |m| <= p
    ensures Shifted(p, x, q) >= 0 && At(Replaced(s, p, x), Shifted(p, x, q), m)
  {
    MarkersApart(s, p, x.marker, q, m, tag);
    OccurrenceStays(s, p, x, q, m);
  }

  /** The first round finds its one marker ... */
  lemma RoundTaken(s: string, x: Edit, rest: seq<Edit>, tag: string, p: nat)
    requires ValidEdits([x] + rest, tag) && ValidEdits(rest, tag) && Unique(s, p, x.marker)
    ensures Rewrite(s, [x] + rest, tag) == Rewrite(Replaced(s, p, x), rest, tag)
  {
    var order := [x] + rest;
    assert order[0] == x && order[1..] == rest;
    CountsOnce(s, x.marker, tag);
  }

  /** ... or stops. */
  lemma RoundRefused(s: string, x: Edit, rest: seq<Edit>, tag: string)
    requires ValidEdits([x] + rest, tag) && forall p: nat :: !Unique(s, p, x.marker)
    ensures Rewrite(s, [x] + rest, tag).None?
  {
    var order := [x] + rest;
    assert order[0] == x && order[1..] == rest;
    CountsOnce(s, x.marker, tag);
  }

  lemma ValidParts(x: Edit, rest: seq<Edit>, tag: string)
    requires ValidEdits([x] + rest, tag)
    ensures ValidEdits(rest, tag) && LineMarker(x.marker, tag)
    ensures forall i :: 0 <= i < |rest| ==> rest[i].marker != x.marker && LineMarker(rest[i].marker, tag)
  {
    var order := [x] + rest;
    assert order[0] == x;
    assert forall i :: 0 <= i < |rest| ==> rest[i] == order[i + 1];
  }

  /** A marker whose turn is over can never be got rid of. */
  lemma {:induction false} LeftoverRefused(s: string, order: seq<Edit>, tag: string, q: int, m: string)
    requires ValidEdits(order, tag) && LineMarker(m, tag) && At(s, q, m)
    requires forall i :: 0 <= i < |order| ==> order[i].marker != m
    ensures Rewrite(s, order, tag).None?
    decreases |order|
  {
    if order == [] {
      TagInMarker(s, q, m, tag);
    } else {
      var x, rest := order[0], order[1..];
      assert order == [x] + rest;
      ValidParts(x, rest, tag);
      if p: nat :| Unique(s, p, x.marker) {
        RoundTaken(s, x, rest, tag, p);
        Stays(s, p, x, q, m, tag);
        LeftoverRefused(Replaced(s, p, x), rest, tag, Shifted(p, x, q), m);
      } else {
        RoundRefused(s, x, rest, tag);
      }
    }
  }

  lemma TagInMarker(s: string, q: int, m: string, tag: string)
    requires LineMarker(m, tag) && At(s, q, m)
    ensures Contains(s, tag)
  {
    assert s[q + 8..q + 8 + |tag|] == m[8..8 + |tag|] by {
      assert forall k :: q <= k < q + |m| ==> s[k] == s[q..q + |m|][k - q];
    }
    assert At(s, q + 8, tag);
  }

  /** A marker that occurs twice is refused when its turn comes. */
  lemma {:induction false} DoubleRefused(s: string, order: seq<Edit>, tag: string, k: nat, q1: int, q2: int)
    requires ValidEdits(order, tag) && k < |order| && q1 < q2
    requires At(s, q1, order[k].marker) && At(s, q2, order[k].marker)
    ensures Rewrite(s, order, tag).None?
    decreases |order|
  {
    var x, rest := order[0], order[1..];
    assert order == [x] + rest;
    ValidParts(x, rest, tag);
    if k == 0 {
      TwiceNotUnique(s, x.marker, q1, q2);
      RoundRefused(s, x, rest, tag);
    } else if p: nat :| Unique(s, p, x.marker) {
      var m := order[k].marker;
      assert rest[k - 1].marker == m;
      RoundTaken(s, x, rest, tag, p);
      TwoStay(s, p, x, q1, q2, m, tag);
      DoubleRefused(Replaced(s, p, x), rest, tag, k - 1, Shifted(p, x, q1), Shifted(p, x, q2));
    } else {
      RoundRefused(s, x, rest, tag);
    }
  }

  lemma TwiceNotUnique(s: string, m: string, q1: int, q2: int)
    requires q1 < q2 && At(s, q1, m) && At(s, q2, m)
    ensures forall p: nat :: !Unique(s, p, m)
  {
  }

  lemma TwoStay(s: string, p: nat, x: Edit, q1: int, q2: int, m: string, tag: string)
    requires LineMarker(x.marker, tag) && LineMarker(m, tag) && m != x.marker && q1 < q2
    requires At(s, p, x.marker) && At(s, q1, m) && At(s, q2, m)
    ensures Shifted(p, x, q1) < Shifted(p, x, q2)
    ensures At(Replaced(s, p, x), Shifted(p, x, q1), m) && At(Replaced(s, p, x), Shifted(p, x, q2), m)
  {
    Stays(s, p, x, q1, m, tag);
    Stays(s, p, x, q2, m, tag);
  }

  // ------------------------------------------------------ the order of the rounds

  /** Every marker is there, at least once. */
  predicate Present(s: string, edits: seq<Edit>) {
    forall i :: 0 <= i < |edits| ==> Contains(s, edits[i].marker)
  }

  lemma PresentAfter(s: string, x: Edit, rest: seq<Edit>, tag: string, p: nat)
    requires ValidEdits([x] + rest, tag) && Present(s, rest) && At(s, p, x.marker)
    ensures Present(Replaced(s, p, x), rest)
  {
    forall i | 0 <= i < |rest|
      ensures Contains(Replaced(s, p, x), rest[i].marker)
    {
      var order := [x] + rest;
      assert order[i + 1] == rest[i] && order[0] == x;
      var m := rest[i].marker;
      var q := FindFrom(s, m, 0).value;
      Stays(s, p, x, q, m, tag);
    }
  }

  lemma ReplacedParts(left: string, x: Edit, right: string)
    ensures At(left + x.marker + right, |left|, x.marker)
    ensures Replaced(left + x.marker + right, |left|, x) == left + x.block + right
  {
    var s := left + x.marker + right;
    assert s[|left|..|left| + |x.marker|] == x.marker;
    assert s[..|left|] == left && s[|left| + |x.marker|..] == right;
  }

  lemma PartsOf(s: string, p: nat, m: string, q: nat, n: string)
    requires At(s, p, m) && At(s, q, n) && p + |m| <= q
    ensures Cut(s, s[..p], m, s[p + |m|..q], n, s[q + |n|..])
  {
    assert s[..q] == s[..p] + s[p..p + |m|] + s[p + |m|..q];
    assert s == s[..q] + s[q..q + |n|] + s[q + |n|..];
  }

  lemma Regrouped(a: string, b: string, c: string, d: string, e: string)
    ensures a + b + (c + d + e) == (a + b + c) + d + e
  {
  }

  /** A text cut around the two markers. */
  ghost predicate Cut(s: string, left: string, m: string, middle: string, n: string, right: string) {
    s == left + m + (middle + n + right)
  }

  lemma FirstThenSecond(s: string, left: string, x: Edit, middle: string, y: Edit, right: string, at: nat)
    requires Cut(s, left, x.marker, middle, y.marker, right) && at == |left| + |x.block| + |middle|
    ensures At(s, |left|, x.marker) && At(Replaced(s, |left|, x), at, y.marker)
    ensures Cut(Replaced(Replaced(s, |left|, x), at, y), left, x.block, middle, y.block, right)
  {
    ReplacedParts(left, x, middle + y.marker + right);
    Regrouped(left, x.block, middle, y.marker, right);
    ReplacedParts(left + x.block + middle, y, right);
    Regrouped(left, x.block, middle, y.block, right);
  }

  lemma SecondThenFirst(s: string, left: string, x: Edit, middle: string, y: Edit, right: string, at: nat)
    requires Cut(s, left, x.marker, middle, y.marker, right) && at == |left| + |x.marker| + |middle|
    ensures At(s, at, y.marker) && At(Replaced(s, at, y), |left|, x.marker)
    ensures Cut(Replaced(Replaced(s, at, y), |left|, x), left, x.block, middle, y.block, right)
  {
    Regrouped(left, x.marker, middle, y.marker, right);
    ReplacedParts(left + x.marker + middle, y, right);
    Regrouped(left, x.marker, middle, y.block, right);
    ReplacedParts(left, x, middle + y.block + right);
  }

  lemma ReplacementsCommute(s: string, p: nat, x: Edit, q: nat, y: Edit)
    requires At(s, p, x.marker) && At(s, q, y.marker) && x.marker != "" && y.marker != ""
    requires p + |x.marker| <= q
    ensures At(Replaced(s, p, x), Shifted(p, x, q), y.marker) && At(Replaced(s, q, y), p, x.marker)
    ensures Replaced(Replaced(s, p, x), Shifted(p, x, q), y) == Replaced(Replaced(s, q, y), p, x)
  {
    PartsOf(s, p, x.marker, q, y.marker);
    var left, middle, right := s[..p], s[p + |x.marker|..q], s[q + |y.marker|..];
    FirstThenSecond(s, left, x, middle, y, right, Shifted(p, x, q));
    SecondThenFirst(s, left, x, middle, y, right, q);
    CutsAgree(Replaced(Replaced(s, p, x), Shifted(p, x, q), y), Replaced(Replaced(s, q, y), p, x),
              left, x.block, middle, y.block, right);
  }

  lemma CutsAgree(s: string, t: string, left: string, m: string, middle: string, n: string, right: string)
    requires Cut(s, left, m, middle, n, right) && Cut(t, left, m, middle, n, right)
    ensures s == t
  {
  }

  lemma ExtraRefused(s: string, q: nat, y: Edit, extra: int, rest: seq<Edit>, tag: string)
    requires ValidEdits(rest, tag) && LineMarker(y.marker, tag)
    requires forall i :: 0 <= i < |rest| ==> rest[i].marker != y.marker
    requires At(s, q, y.marker) && At(s, extra, y.marker) && extra != q
    ensures Rewrite(Replaced(s, q, y), rest, tag).None?
  {
    Stays(s, q, y, extra, y.marker, tag);
    LeftoverRefused(Replaced(s, q, y), rest, tag, Shifted(q, y, extra), y.marker);
  }

  /**
   Two neighbouring rounds, both markers unique at first: they go through to the text with
   both replaced, and when a third marker shows up on the way that text is refused anyway.
   */
  lemma TwoRounds(s: string, x: Edit, y: Edit, rest: seq<Edit>, tag: string, p: nat, q: nat)
    requires ValidEdits([x] + ([y] + rest), tag) && ValidEdits(rest, tag)
    requires Unique(s, p, x.marker) && Unique(s, q, y.marker)
    ensures Shifted(p, x, q) >= 0 && At(Replaced(s, p, x), Shifted(p, x, q), y.marker)
    ensures Rewrite(s, [x] + ([y] + rest), tag) == Rewrite(Replaced(Replaced(s, p, x), Shifted(p, x, q), y), rest, tag)
  {
    ValidParts(x, [y] + rest, tag);
    ValidParts(y, rest, tag);
    assert ([y] + rest)[0] == y;
    var sx, q' := Replaced(s, p, x), Shifted(p, x, q);
    Stays(s, p, x, q, y.marker, tag);
    RoundTaken(s, x, [y] + rest, tag, p);
    if Unique(sx, q', y.marker) {
      RoundTaken(sx, y, rest, tag, q');
    } else {
      RoundRefused(sx, y, rest, tag);
      var extra :| At(sx, extra, y.marker) && extra != q';
      ExtraRefused(sx, q', y, extra, rest, tag);
    }
  }

  /** Neighbouring rounds may change places, as long as both markers are there. */
  lemma SwapRounds(s: string, x: Edit, y: Edit, rest: seq<Edit>, tag: string)
    requires ValidEdits([x] + ([y] + rest), tag) && ValidEdits([y] + ([x] + rest), tag) && ValidEdits(rest, tag)
    requires Contains(s, x.marker) && Contains(s, y.marker)
    ensures Rewrite(s, [x] + ([y] + rest), tag) == Rewrite(s, [y] + ([x] + rest), tag)
  {
    var p, q := FindFrom(s, x.marker, 0).value, FindFrom(s, y.marker, 0).value;
    if Unique(s, p, x.marker) && Unique(s, q, y.marker) {
      TwoRounds(s, x, y, rest, tag, p, q);
      TwoRounds(s, y, x, rest, tag, q, p);
      ValidParts(x, [y] + rest, tag);
      ValidParts(y, [x] + rest, tag);
      assert ([y] + rest)[0] == y;
      Stays(s, p, x, q, y.marker, tag);
      if p < q {
        ReplacementsCommute(s, p, x, q, y);
      } else {
        ReplacementsCommute(s, q, y, p, x);
      }
    } else if !Unique(s, p, x.marker) {
      var extra :| At(s, extra, x.marker) && extra != p;
      assert ([y] + ([x] + rest))[1] == x && ([x] + ([y] + rest))[0] == x;
      DoubleRefused(s, [x] + ([y] + rest), tag, 0, p, extra);
      DoubleRefused(s, [y] + ([x] + rest), tag, 1, p, extra);
    } else {
      var extra :| At(s, extra, y.marker) && extra != q;
      assert ([x] + ([y] + rest))[1] == y && ([y] + ([x] + rest))[0] == y;
      DoubleRefused(s, [x] + ([y] + rest), tag, 1, q, extra);
      DoubleRefused(s, [y] + ([x] + rest), tag, 0, q, extra);
    }
  }

  /** Any round may be moved to the front. */
  lemma {:induction false} MoveToFront(s: string, pre: seq<Edit>, x: Edit, post: seq<Edit>, tag: string)
    requires ValidEdits(pre + [x] + post, tag) && ValidEdits([x] + (pre + post), tag)
    requires Present(s, pre + [x] + post)
    ensures Rewrite(s, pre + [x] + post, tag) == Rewrite(s, [x] + (pre + post), tag)
    decreases |pre|
  {
    var order := pre + [x] + post;
    if pre == [] {
      assert order == [x] + (pre + post);
    } else {
      var y, pre' := pre[0], pre[1..];
      var rest := pre' + post;
      assert order == [y] + (pre' + [x] + post);
      assert [x] + (pre + post) == [x] + ([y] + rest);
      ValidParts(y, pre' + [x] + post, tag);
      ValidParts(x, [y] + rest, tag);
      ValidParts(y, rest, tag);
      assert order[0] == y && order[|pre|] == x;
      FrontValid(y, x, rest, tag);
      ValidParts(y, [x] + rest, tag);
      SwapRounds(s, x, y, rest, tag);
      if p: nat :| Unique(s, p, y.marker) {
        RoundTaken(s, y, pre' + [x] + post, tag, p);
        RoundTaken(s, y, [x] + rest, tag, p);
        assert forall i :: 0 <= i < |pre' + [x] + post| ==> (pre' + [x] + post)[i] == order[i + 1];
        PresentAfter(s, y, pre' + [x] + post, tag, p);
        MoveToFront(Replaced(s, p, y), pre', x, post, tag);
      } else {
        RoundRefused(s, y, pre' + [x] + post, tag);
        RoundRefused(s, y, [x] + rest, tag);
      }
    }
  }

  lemma FrontValid(y: Edit, x: Edit, rest: seq<Edit>, tag: string)
    requires ValidEdits([x] + ([y] + rest), tag)
    ensures ValidEdits([y] + ([x] + rest), tag)
  {
    var order, swapped := [x] + ([y] + rest), [y] + ([x] + rest);
    forall i | 0 <= i < |swapped|
      ensures swapped[i] == order[if i == 0 then 1 else if i == 1 then 0 else i]
    {
    }
    forall i, j | 0 <= i < j < |swapped|
      ensures swapped[i].marker != swapped[j].marker
    {
      var i', j' := if i == 0 then 1 else if i == 1 then 0 else i, if j == 1 then 0 else j;
      assert swapped[i] == order[i'] && swapped[j] == order[j'];
    }
  }

  /** The first element of one arrangement, found in another. */
  lemma FindFirst(a: seq<Edit>, b: seq<Edit>) returns (k: nat)
    requires a != [] && multiset(a) == multiset(b)
    ensures k < |b| && b == b[..k] + [a[0]] + b[k + 1..]
    ensures multiset(a[1..]) == multiset(b[..k] + b[k + 1..])
  {
    assert a[0] in multiset(b);
    k :| 0 <= k < |b| && b[k] == a[0];
    assert a == [a[0]] + a[1..];
    assert b == b[..k] + [a[0]] + b[k + 1..];
    assert multiset(a) == multiset{a[0]} + multiset(a[1..]);
    assert multiset(b) == multiset(b[..k]) + multiset{a[0]} + multiset(b[k + 1..]);
    assert multiset(b[..k] + b[k + 1..]) == multiset(b) - multiset{a[0]};
  }

  /** As long as every marker is there, the order of the rounds does not matter. */
  lemma {:induction false} OrderIrrelevant(s: string, a: seq<Edit>, b: seq<Edit>, tag: string)
    requires ValidEdits(a, tag) && ValidEdits(b, tag) && multiset(a) == multiset(b)
    requires Present(s, a)
    ensures Rewrite(s, a, tag) == Rewrite(s, b, tag)
    decreases |a|
  {
    if a == [] {
      assert |multiset(b)| == 0;
    } else {
      var x, rest := a[0], a[1..];
      assert a == [x] + rest;
      var k := FindFirst(a, b);
      var pre, post := b[..k], b[k + 1..];
      ValidParts(x, rest, tag);
      FrontOfPermutation(b, k, tag);
      PresentPermuted(s, a, b);
      MoveToFront(s, pre, x, post, tag);
      if p: nat :| Unique(s, p, x.marker) {
        RoundTaken(s, x, rest, tag, p);
        RoundTaken(s, x, pre + post, tag, p);
        assert forall i :: 0 <= i < |rest| ==> rest[i] == a[i + 1];
        PresentAfter(s, x, rest, tag, p);
        OrderIrrelevant(Replaced(s, p, x), rest, pre + post, tag);
      } else {
        RoundRefused(s, x, rest, tag);
        RoundRefused(s, x, pre + post, tag);
      }
    }
  }

  lemma FrontOfPermutation(b: seq<Edit>, k: nat, tag: string)
    requires ValidEdits(b, tag) && k < |b|
    ensures ValidEdits([b[k]] + (b[..k] + b[k + 1..]), tag) && ValidEdits(b[..k] + b[k + 1..], tag)
    ensures multiset([b[k]] + (b[..k] + b[k + 1..])) == multiset(b)
  {
    var others := b[..k] + b[k + 1..];
    forall i | 0 <= i < |others|
      ensures others[i] == if i < k then b[i] else b[i + 1]
    {
    }
    assert b == b[..k] + [b[k]] + b[k + 1..];
  }

  lemma PresentPermuted(s: string, a: seq<Edit>, b: seq<Edit>)
    requires multiset(a) == multiset(b) && Present(s, a)
    ensures Present(s, b)
  {
    forall i | 0 <= i < |b|
      ensures Contains(s, b[i].marker)
    {
      assert b[i] in multiset(b);
      var j :| 0 <= j < |a| && a[j] == b[i];
    }
  }

  /** Every marker occurs exactly once in the source text itself. */
  predicate OnceEach(s: string, edits: seq<Edit>, tag: string)
    requires ValidEdits(edits, tag)
  {
    forall i :: 0 <= i < |edits| ==> Count(s, edits[i].marker, 0) == 1
  }

  /**
   An accepted text renders the same in every order exactly when each marker occurs once in
   the source; otherwise some marker only came into being by an earlier replacement.
   */
  lemma OrderIrrelevantExactly(s: string, order: seq<Edit>, tag: string)
    requires ValidEdits(order, tag) && Rewrite(s, order, tag).Some?
    ensures OnceEach(s, order, tag) <==>
      forall other :: ValidEdits(other, tag) && multiset(other) == multiset(order) ==>
        Rewrite(s, other, tag) == Rewrite(s, order, tag)
  {
    if OnceEach(s, order, tag) {
      forall other | ValidEdits(other, tag) && multiset(other) == multiset(order)
        ensures Rewrite(s, other, tag) == Rewrite(s, order, tag)
      {
        OnceIsPresent(s, order, tag);
        OrderIrrelevant(s, order, other, tag);
      }
    } else {
      var k :| 0 <= k < |order| && Count(s, order[k].marker, 0) != 1;
      var other := OrderRefused(s, order, tag, k);
    }
  }

  /** A marker that does not occur exactly once is refused when it goes first. */
  lemma OrderRefused(s: string, order: seq<Edit>, tag: string, k: nat) returns (other: seq<Edit>)
    requires ValidEdits(order, tag) && k < |order| && order[k].marker != "" && Count(s, order[k].marker, 0) != 1
    ensures ValidEdits(other, tag) && multiset(other) == multiset(order) && Rewrite(s, other, tag).None?
  {
    FrontOfPermutation(order, k, tag);
    var others := order[..k] + order[k + 1..];
    other := [order[k]] + others;
    ValidParts(order[k], others, tag);
    CountsOnce(s, order[k].marker, tag);
    RoundRefused(s, order[k], others, tag);
  }

  lemma NoLaterCopy(m: string, n: string, tag: string, q: int)
    requires LineMarker(m, tag) && LineMarker(n, tag) && m != n
    ensures q > |m| ==> !At(n[..1] + m + n[1..], q, m)
  {
    var s := n[..1] + m + n[1..];
    assert |m| < q && q + |m| <= |s| ==> s[q..q + |m|] == n[q - |m|..q];
    assert n[0..|n|] == n;
    if q > |m| && At(n, q - |m|, m) {
      MarkersApart(n, q - |m|, m, 0, n, tag);
    }
  }

  lemma WholeOnce(y: Edit)
    ensures Unique(y.marker, 0, y.marker) && Replaced(y.marker, 0, y) == y.block
  {
    assert y.marker[0..|y.marker|] == y.marker;
  }

  /** A text that is one marker is replaced as a whole. */
  lemma Whole(y: Edit, tag: string)
    requires ValidEdits([y], tag) && !Contains(y.block, tag)
    ensures Rewrite(y.marker, [y], tag) == Some(y.block)
  {
    assert [y] == [y] + [];
    WholeOnce(y);
    RoundTaken(y.marker, y, [], tag, 0);
  }

  lemma InsertedOnce(m: string, n: string, tag: string)
    requires LineMarker(m, tag) && LineMarker(n, tag) && m != n
    ensures Unique(n[..1] + m + n[1..], 1, m)
  {
    var s := n[..1] + m + n[1..];
    assert s[1..1 + |m|] == m;
    forall q | At(s, q, m)
      ensures q == 1
    {
      MarkersApart(s, 1, m, q, m, tag);
      NoLaterCopy(m, n, tag, q);
    }
  }

  /** A marker that is interrupted by another one is not found. */
  lemma Interrupted(m: string, n: string, tag: string)
    requires LineMarker(m, tag) && LineMarker(n, tag) && m != n
    ensures forall p: nat :: !Unique(n[..1] + m + n[1..], p, n)
  {
    var s := n[..1] + m + n[1..];
    assert s[1..1 + |m|] == m;
    forall p: nat
      ensures !Unique(s, p, n)
    {
      if At(s, p, n) {
        MarkersApart(s, 1, m, p, n, tag);
      }
    }
  }

  /**
   For any two markers, the first of which is simply removed, some text is accepted in one
   order and refused in the other: removing the first marker puts the second together.
   */
  lemma OrderMatters(x: Edit, y: Edit, tag: string) returns (s: string)
    requires ValidEdits([x] + [y], tag) && ValidEdits([y] + [x], tag) && x.block == "" && !Contains(y.block, tag)
    ensures Rewrite(s, [x] + [y], tag) == Some(y.block)
    ensures Rewrite(s, [y] + [x], tag) == None
  {
    var m, n := x.marker, y.marker;
    ValidParts(x, [y], tag);
    ValidParts(y, [], tag);
    assert [y] + [] == [y] && [y][0] == y;
    s := n[..1] + m + n[1..];
    InsertedOnce(m, n, tag);
    RoundTaken(s, x, [y], tag, 1);
    assert Replaced(s, 1, x) == n;
    Whole(y, tag);
    Interrupted(m, n, tag);
    RoundRefused(s, y, [x], tag);
  }

  /** The markers of a list, one after the other. */
  function Markers(edits: seq<Edit>): string {
    if edits == [] then "" else edits[0].marker + Markers(edits[1..])
  }

  /** Nothing but these markers occurs in them. */
  lemma {:induction false} OccursInMarkers(edits: seq<Edit>, tag: string, q: nat, m: string)
    requires ValidEdits(edits, tag) && LineMarker(m, tag) && At(Markers(edits), q, m)
    ensures exists i :: 0 <= i < |edits| && edits[i].marker == m
    decreases |edits|
  {
    var s, first, rest := Markers(edits), edits[0].marker, edits[1..];
    assert s[0..|first|] == first && s[|first|..] == Markers(rest);
    MarkersApart(s, 0, first, q, m, tag);
    if q >= |first| {
      AtSuffix(s, |first|, q - |first|, m);
      assert edits == [edits[0]] + rest;
      ValidParts(edits[0], rest, tag);
      OccursInMarkers(rest, tag, q - |first|, m);
      var i :| 0 <= i < |rest| && rest[i].marker == m;
      assert edits[i + 1] == rest[i];
    }
  }

  /** A marker outside the list does not occur in its markers. */
  lemma AbsentFromMarkers(edits: seq<Edit>, tag: string, m: string)
    requires ValidEdits(edits, tag) && LineMarker(m, tag) && forall i :: 0 <= i < |edits| ==> edits[i].marker != m
    ensures forall q :: !At(Markers(edits), q, m)
  {
    forall q
      ensures !At(Markers(edits), q, m)
    {
      if q >= 0 && At(Markers(edits), q, m) {
        OccursInMarkers(edits, tag, q, m);
      }
    }
  }

  predicate AllRemoved(edits: seq<Edit>) {
    forall i :: 0 <= i < |edits| ==> edits[i].block == ""
  }

  lemma FirstOfMarkers(y: Edit, rest: seq<Edit>, tag: string)
    requires ValidEdits([y] + rest, tag)
    ensures Markers([y] + rest) == y.marker + Markers(rest) && Unique(Markers([y] + rest), 0, y.marker)
    ensures forall q :: !At(Markers(rest), q, y.marker)
  {
    var s, n := Markers([y] + rest), y.marker;
    ValidParts(y, rest, tag);
    assert ([y] + rest)[1..] == rest;
    AbsentFromMarkers(rest, tag, n);
    assert s[0..|n|] == n && s[|n|..] == Markers(rest);
    forall q | At(s, q, n)
      ensures q == 0
    {
      MarkersApart(s, 0, n, q, n, tag);
      if q >= |n| {
        AtSuffix(s, |n|, q - |n|, n);
      }
    }
  }

  /** When all markers are simply removed, their sequence is rewritten to nothing. */
  lemma {:induction false} MarkersVanish(edits: seq<Edit>, tag: string)
    requires ValidEdits(edits, tag) && AllRemoved(edits) && tag != ""
    ensures Rewrite(Markers(edits), edits, tag) == Some("")
    decreases |edits|
  {
    if edits != [] {
      var y, rest := edits[0], edits[1..];
      assert edits == [y] + rest;
      ValidParts(y, rest, tag);
      FirstOfMarkers(y, rest, tag);
      RoundTaken(Markers(edits), y, rest, tag, 0);
      assert Replaced(Markers(edits), 0, y) == Markers(rest);
      MarkersVanish(rest, tag);
    }
  }

  /** The second marker with the first one in it, followed by the others. */
  function Nested(m: string, n: string, others: string): string
    requires n != ""
  {
    n[..1] + m + (n[1..] + others)
  }

  lemma NestedSuffix(m: string, n: string, others: string, q: nat, k: string)
    requires n != "" && q >= 1 + |m| && At(Nested(m, n, others), q, k)
    ensures At(n + others, q - |m|, k)
  {
    var s := Nested(m, n, others);
    assert s[1 + |m|..] == n[1..] + others && (n + others)[1..] == n[1..] + others;
    AtSuffix(s, 1 + |m|, q - 1 - |m|, k);
    AtSuffix(n + others, 1, q - 1 - |m|, k);
  }

  lemma NestedOccurrences(x: Edit, y: Edit, rest: seq<Edit>, tag: string)
    requires ValidEdits([x] + ([y] + rest), tag) && ValidEdits([y] + rest, tag) && y.marker != ""
    ensures Unique(Nested(x.marker, y.marker, Markers(rest)), 1, x.marker)
    ensures forall p: nat :: !Unique(Nested(x.marker, y.marker, Markers(rest)), p, y.marker)
  {
    var m, n, others := x.marker, y.marker, Markers(rest);
    var s := Nested(m, n, others);
    ValidParts(x, [y] + rest, tag);
    ValidParts(y, rest, tag);
    assert ([y] + rest)[0] == y;
    FirstOfMarkers(y, rest, tag);
    AbsentFromMarkers([y] + rest, tag, m);
    assert s[1..1 + |m|] == m;
    forall q | At(s, q, m)
      ensures q == 1
    {
      MarkersApart(s, 1, m, q, m, tag);
      if q >= 1 + |m| {
        NestedSuffix(m, n, others, q, m);
      }
    }
    forall p: nat
      ensures !Unique(s, p, n)
    {
      if At(s, p, n) {
        MarkersApart(s, 1, m, p, n, tag);
        NestedSuffix(m, n, others, p, n);
      }
    }
  }

  /** The same with further markers behind: when all of them are removed, exchanging the first two rounds decides. */
  lemma OrderMattersAmong(x: Edit, y: Edit, rest: seq<Edit>, tag: string)
    requires ValidEdits([x] + ([y] + rest), tag) && ValidEdits([y] + ([x] + rest), tag)
    requires AllRemoved([x] + ([y] + rest)) && tag != "" && y.marker != ""
    ensures Rewrite(Nested(x.marker, y.marker, Markers(rest)), [x] + ([y] + rest), tag) == Some("")
    ensures Rewrite(Nested(x.marker, y.marker, Markers(rest)), [y] + ([x] + rest), tag) == None
  {
    ValidParts(x, [y] + rest, tag);
    NestedOccurrences(x, y, rest, tag);
    RoundRefused(Nested(x.marker, y.marker, Markers(rest)), y, [x] + rest, tag);
    NestedAccepted(x, y, rest, tag);
  }

  lemma NestedAccepted(x: Edit, y: Edit, rest: seq<Edit>, tag: string)
    requires ValidEdits([x] + ([y] + rest), tag) && ValidEdits([y] + rest, tag)
    requires AllRemoved([x] + ([y] + rest)) && tag != "" && y.marker != ""
    requires Unique(Nested(x.marker, y.marker, Markers(rest)), 1, x.marker)
    ensures Rewrite(Nested(x.marker, y.marker, Markers(rest)), [x] + ([y] + rest), tag) == Some("")
  {
    var s, all := Nested(x.marker, y.marker, Markers(rest)), [x] + ([y] + rest);
    assert all[0] == x && forall i :: 0 <= i < |[y] + rest| ==> ([y] + rest)[i] == all[i + 1];
    RoundTaken(s, x, [y] + rest, tag, 1);
    FirstOfMarkers(y, rest, tag);
    Unnested(x, y.marker, Markers(rest));
    MarkersVanish([y] + rest, tag);
  }

  lemma Unnested(x: Edit, n: string, others: string)
    requires n != "" && x.block == ""
    ensures At(Nested(x.marker, n, others), 1, x.marker) && Replaced(Nested(x.marker, n, others), 1, x) == n + others
  {
    ReplacedParts(n[..1], x, n[1..] + others);
    assert n[..1] + "" + (n[1..] + others) == n + others;
  }

  // ------------------------------------------------- what the result looks like

  /** The edit whose marker `s` starts with, if any. */
  function Starting(s: string, edits: seq<Edit>): (r: Option<Edit>)
    ensures r.Some? ==> r.value in edits && At(s, 0, r.value.marker)
    ensures r.None? ==> forall e :: e in edits ==> !At(s, 0, e.marker)
  {
    if edits == [] then None
    else if At(s, 0, edits[0].marker) then Some(edits[0])
    else Starting(s, edits[1..])
  }

  /** The reference: one pass over the text, all markers at once, everything else copied. */
  function OnePass(s: string, edits: seq<Edit>): string
    decreases |s|
  {
    if s == "" then ""
    else
      match Starting(s, edits)
      case Some(e) => if e.marker == "" then s else e.block + OnePass(s[|e.marker|..], edits)
      case None => [s[0]] + OnePass(s[1..], edits)
  }

  /** No marker of the list starts before `cut` and ends behind it. */
  ghost predicate CleanCut(s: string, cut: nat, edits: seq<Edit>) {
    forall e, q :: e in edits && At(s, q, e.marker) ==> q + |e.marker| <= cut || cut <= q
  }

  predicate NonEmpty(edits: seq<Edit>) {
    forall e :: e in edits ==> e.marker != ""
  }

  lemma AtSuffix(s: string, k: nat, q: int, m: string)
    requires k <= |s| && q >= 0
    ensures At(s[k..], q, m) <==> At(s, q + k, m)
  {
    if q + |m| <= |s| - k {
      assert s[k..][q..q + |m|] == s[q + k..q + k + |m|];
    }
  }

  lemma AtPrefix(u: string, v: string, q: int, m: string)
    requires q + |m| <= |u|
    ensures At(u, q, m) <==> At(u + v, q, m)
  {
    if q >= 0 {
      assert u[q..q + |m|] == (u + v)[q..q + |m|];
    }
  }

  lemma StartingAtCut(u: string, v: string, edits: seq<Edit>)
    requires u != "" && NonEmpty(edits) && CleanCut(u + v, |u|, edits)
    ensures Starting(u + v, edits) == Starting(u, edits)
  {
    if edits != [] {
      var m := edits[0].marker;
      assert edits[0] in edits;
      if At(u + v, 0, m) || |m| <= |u| {
        AtPrefix(u, v, 0, m);
      }
      forall e | e in edits[1..]
        ensures e in edits
      {
      }
      StartingAtCut(u, v, edits[1..]);
    }
  }

  /** How much of the text one step of the pass takes ... */
  function Width(s: string, edits: seq<Edit>): nat {
    match Starting(s, edits) case Some(e) => |e.marker| case None => 1
  }

  /** ... and what it makes of it. */
  function Piece(s: string, edits: seq<Edit>): string
    requires s != ""
  {
    match Starting(s, edits) case Some(e) => e.block case None => [s[0]]
  }

  lemma OnePassUnfolds(s: string, edits: seq<Edit>)
    requires s != "" && NonEmpty(edits)
    ensures 0 < Width(s, edits) <= |s|
    ensures OnePass(s, edits) == Piece(s, edits) + OnePass(s[Width(s, edits)..], edits)
  {
  }

  lemma Associate(a: string, b: string, c: string)
    ensures a + (b + c) == (a + b) + c
  {
  }

  lemma {:induction false} OnePassSplits(u: string, v: string, edits: seq<Edit>)
    requires NonEmpty(edits) && CleanCut(u + v, |u|, edits)
    ensures OnePass(u + v, edits) == OnePass(u, edits) + OnePass(v, edits)
    decreases |u|
  {
    if u == "" {
      assert u + v == v;
    } else {
      var k := Width(u, edits);
      StartingAtCut(u, v, edits);
      OnePassUnfolds(u, edits);
      OnePassUnfolds(u + v, edits);
      CutMoves(u, v, edits, k);
      OnePassSplits(u[k..], v, edits);
      Associate(Piece(u, edits), OnePass(u[k..], edits), OnePass(v, edits));
    }
  }

  lemma CutMoves(u: string, v: string, edits: seq<Edit>, k: nat)
    requires CleanCut(u + v, |u|, edits) && k <= |u|
    ensures (u + v)[k..] == u[k..] + v && CleanCut(u[k..] + v, |u[k..]|, edits)
  {
    assert (u + v)[k..] == u[k..] + v;
    forall e, q | e in edits && At(u[k..] + v, q, e.marker)
      ensures q + |e.marker| <= |u[k..]| || |u[k..]| <= q
    {
      AtSuffix(u + v, k, q, e.marker);
    }
  }

  lemma {:induction false} OnePassCopies(s: string, edits: seq<Edit>)
    requires forall e, q :: e in edits ==> !At(s, q, e.marker)
    ensures OnePass(s, edits) == s
    decreases |s|
  {
    if s != "" {
      assert Starting(s, edits).None?;
      forall e, q | e in edits
        ensures !At(s[1..], q, e.marker)
      {
        if q >= 0 {
          AtSuffix(s, 1, q, e.marker);
        }
      }
      OnePassCopies(s[1..], edits);
    }
  }

  /** A marker that does not occur need not be looked for. */
  lemma {:induction false} OnePassIgnores(s: string, x: Edit, rest: seq<Edit>)
    requires NonEmpty([x] + rest) && forall q :: !At(s, q, x.marker)
    ensures OnePass(s, [x] + rest) == OnePass(s, rest)
    decreases |s|
  {
    if s != "" {
      assert ([x] + rest)[1..] == rest;
      assert Starting(s, [x] + rest) == Starting(s, rest);
      var k := match Starting(s, rest) { case Some(e) => |e.marker| case None => 1 };
      assert Starting(s, rest).Some? ==> Starting(s, rest).value in [x] + rest;
      forall q
        ensures !At(s[k..], q, x.marker)
      {
        if q >= 0 {
          AtSuffix(s, k, q, x.marker);
        }
      }
      OnePassIgnores(s[k..], x, rest);
    }
  }

  /** In the text before a round, no marker reaches across the marker that is replaced. */
  lemma SourceCuts(s: string, x: Edit, rest: seq<Edit>, tag: string, p: nat)
    requires ValidEdits([x] + rest, tag) && At(s, p, x.marker)
    ensures CleanCut(s, p, [x] + rest) && CleanCut(s, p + |x.marker|, [x] + rest)
    ensures NonEmpty([x] + rest)
  {
    var order := [x] + rest;
    assert order[0] == x;
    forall e | e in order
      ensures LineMarker(e.marker, tag)
    {
      var i :| 0 <= i < |order| && order[i] == e;
    }
    forall e, q | e in order && At(s, q, e.marker)
      ensures q + |e.marker| <= p || p + |x.marker| <= q || (q == p && |e.marker| == |x.marker|)
    {
      MarkersApart(s, p, x.marker, q, e.marker, tag);
    }
  }

  /** No marker of the list has come into being from `s` to `t`. */
  ghost predicate NoneAssembled(s: string, t: string, edits: seq<Edit>) {
    forall e :: e in edits && Contains(t, e.marker) ==> Contains(s, e.marker)
  }

  /** In the text after an accepted round that assembles nothing, no marker touches the inserted block. */
  lemma ResultApart(s: string, x: Edit, rest: seq<Edit>, tag: string, p: nat)
    requires ValidEdits([x] + rest, tag) && ValidEdits(rest, tag) && At(s, p, x.marker)
    requires NoneAssembled(s, Replaced(s, p, x), rest)
    requires Rewrite(Replaced(s, p, x), rest, tag).Some?
    ensures forall e, q :: e in rest && At(Replaced(s, p, x), q, e.marker) ==> q + |e.marker| <= p || p + |x.block| <= q
  {
    var s' := Replaced(s, p, x);
    ValidParts(x, rest, tag);
    forall e, q | e in rest && At(s', q, e.marker)
      ensures q + |e.marker| <= p || p + |x.block| <= q
    {
      var k :| 0 <= k < |rest| && rest[k] == e;
      assert Contains(s', e.marker);
      var origin := FindFrom(s, e.marker, 0).value;
      Stays(s, p, x, origin, e.marker, tag);
      var image := Shifted(p, x, origin);
      if q < image {
        DoubleRefused(s', rest, tag, k, q, image);
      } else if image < q {
        DoubleRefused(s', rest, tag, k, image, q);
      }
    }
  }

  /** A unique marker does not stand before its place. */
  lemma NotBefore(s: string, m: string, p: nat)
    requires Unique(s, p, m) && m != ""
    ensures forall q :: !At(s[..p], q, m)
  {
    assert s == s[..p] + s[p..];
    forall q
      ensures !At(s[..p], q, m)
    {
      if 0 <= q && q + |m| <= p {
        AtPrefix(s[..p], s[p..], q, m);
      }
    }
  }

  /** Nor does it stand behind it. */
  lemma NotBehind(s: string, m: string, p: nat, v: string)
    requires Unique(s, p, m) && m != "" && v == s[p + |m|..]
    ensures forall q :: !At(v, q, m)
  {
    forall q
      ensures !At(v, q, m)
    {
      if q >= 0 {
        AtSuffix(s, p + |m|, q, m);
      }
    }
  }

  lemma OnePassOfMarker(x: Edit, v: string, edits: seq<Edit>)
    requires edits != [] && edits[0] == x && x.marker != ""
    ensures OnePass(x.marker + v, edits) == x.block + OnePass(v, edits)
  {
    var text := x.marker + v;
    assert text[0..|x.marker|] == x.marker && text[|x.marker|..] == v;
    assert Starting(text, edits) == Some(x);
  }

  lemma OnePassAtMarker(s: string, x: Edit, edits: seq<Edit>, p: nat)
    requires edits != [] && edits[0] == x && NonEmpty(edits) && At(s, p, x.marker) && CleanCut(s, p, edits)
    ensures OnePass(s, edits) == OnePass(s[..p], edits) + (x.block + OnePass(s[p + |x.marker|..], edits))
  {
    var u, v := s[..p], s[p + |x.marker|..];
    assert x in edits;
    assert s == u + (x.marker + v);
    OnePassSplits(u, x.marker + v, edits);
    OnePassOfMarker(x, v, edits);
  }

  lemma OnePassAt(s: string, x: Edit, rest: seq<Edit>, tag: string, p: nat)
    requires ValidEdits([x] + rest, tag) && At(s, p, x.marker)
    ensures NonEmpty([x] + rest) && x.marker != ""
    ensures OnePass(s, [x] + rest) == OnePass(s[..p], [x] + rest) + (x.block + OnePass(s[p + |x.marker|..], [x] + rest))
  {
    SourceCuts(s, x, rest, tag, p);
    assert ([x] + rest)[0] == x && x in [x] + rest;
    OnePassAtMarker(s, x, [x] + rest, p);
  }

  lemma OnePassBefore(s: string, x: Edit, rest: seq<Edit>, tag: string, p: nat)
    requires ValidEdits([x] + rest, tag) && Unique(s, p, x.marker)
    ensures OnePass(s, [x] + rest) == OnePass(s[..p], rest) + x.block + OnePass(s[p + |x.marker|..], rest)
  {
    var u, v := s[..p], s[p + |x.marker|..];
    OnePassAt(s, x, rest, tag, p);
    NotBefore(s, x.marker, p);
    NotBehind(s, x.marker, p, v);
    OnePassIgnores(u, x, rest);
    OnePassIgnores(v, x, rest);
  }

  /** Leading text that no marker touches is copied. */
  lemma BlockCopied(b: string, v: string, edits: seq<Edit>)
    requires NonEmpty(edits)
    requires forall e, q :: e in edits && At(b + v, q, e.marker) ==> |b| <= q
    ensures OnePass(b + v, edits) == b + OnePass(v, edits)
  {
    OnePassSplits(b, v, edits);
    forall e, q | e in edits
      ensures !At(b, q, e.marker)
    {
      if 0 <= q && q + |e.marker| <= |b| {
        AtPrefix(b, v, q, e.marker);
      }
    }
    OnePassCopies(b, edits);
  }

  /** Inserted text that no marker touches is copied. */
  lemma OnePassAround(u: string, b: string, v: string, edits: seq<Edit>)
    requires NonEmpty(edits)
    requires forall e, q :: e in edits && At(u + (b + v), q, e.marker) ==> q + |e.marker| <= |u| || |u| + |b| <= q
    ensures OnePass(u + (b + v), edits) == OnePass(u, edits) + b + OnePass(v, edits)
  {
    var s := u + (b + v);
    assert s[|u|..] == b + v;
    forall e, q | e in edits && At(b + v, q, e.marker)
      ensures |b| <= q
    {
      AtSuffix(s, |u|, q, e.marker);
    }
    OnePassSplits(u, b + v, edits);
    BlockCopied(b, v, edits);
  }

  lemma NoneEmpty(edits: seq<Edit>, tag: string)
    requires ValidEdits(edits, tag)
    ensures NonEmpty(edits)
  {
    forall e | e in edits
      ensures e.marker != ""
    {
      var i :| 0 <= i < |edits| && edits[i] == e;
      assert LineMarker(edits[i].marker, tag);
    }
  }

  lemma OnePassAfter(s: string, x: Edit, rest: seq<Edit>, tag: string, p: nat)
    requires ValidEdits([x] + rest, tag) && ValidEdits(rest, tag) && At(s, p, x.marker)
    requires NoneAssembled(s, Replaced(s, p, x), rest)
    requires Rewrite(Replaced(s, p, x), rest, tag).Some?
    ensures OnePass(Replaced(s, p, x), rest) == OnePass(s[..p], rest) + x.block + OnePass(s[p + |x.marker|..], rest)
  {
    ResultApart(s, x, rest, tag, p);
    NoneEmpty(rest, tag);
    assert Replaced(s, p, x) == s[..p] + (x.block + s[p + |x.marker|..]);
    OnePassAround(s[..p], x.block, s[p + |x.marker|..], rest);
  }

  /**
   An accepted rewriting of a text that holds every marker is the one-pass substitution:
   each marker gives way to its block and all other text is kept in order.
   */
  lemma {:induction false} RewriteIsOnePass(s: string, order: seq<Edit>, tag: string)
    requires ValidEdits(order, tag) && Present(s, order) && Rewrite(s, order, tag).Some?
    ensures Rewrite(s, order, tag) == Some(OnePass(s, order))
    ensures !Contains(OnePass(s, order), tag)
    decreases |order|
  {
    if order == [] {
      OnePassCopies(s, order);
    } else {
      var x, rest := order[0], order[1..];
      assert order == [x] + rest;
      ValidParts(x, rest, tag);
      if p: nat :| Unique(s, p, x.marker) {
        RoundTaken(s, x, rest, tag, p);
        assert forall i :: 0 <= i < |rest| ==> rest[i] == order[i + 1];
        PresentAfter(s, x, rest, tag, p);
        assert forall e :: e in rest ==> Contains(s, e.marker);
        RewriteIsOnePass(Replaced(s, p, x), rest, tag);
        OnePassBefore(s, x, rest, tag, p);
        OnePassAfter(s, x, rest, tag, p);
      } else {
        RoundRefused(s, x, rest, tag);
      }
    }
  }

  // ------------------------------------- markers that come into being on the way

  /** Text in front of an occurrence that reaches beyond it is passed over up to there and then copied. */
  lemma LeftKept(far: string, near: string, w: string, q: nat, m: string, edits: seq<Edit>, tag: string)
    requires ValidEdits(edits, tag) && LineMarker(m, tag) && At((far + near) + w, q, m) && q + |m| > |far + near|
    requires |far| == if q < |far + near| then q else |far + near|
    ensures OnePass(far + near, edits) == OnePass(far, edits) + near
  {
    NoneEmpty(edits, tag);
    forall e, r | e in edits && At(far + near, r, e.marker)
      ensures r + |e.marker| <= |far|
    {
      var k :| 0 <= k < |edits| && edits[k] == e;
      AheadOfOccurrence(far + near, w, q, m, r, edits[k].marker, tag);
    }
    OnePassSplits(far, near, edits);
    NoneNear(far, near, edits);
    OnePassCopies(near, edits);
  }

  lemma AheadOfOccurrence(u: string, w: string, q: nat, m: string, r: int, n: string, tag: string)
    requires LineMarker(m, tag) && LineMarker(n, tag) && At(u + w, q, m) && q + |m| > |u| && At(u, r, n)
    ensures r + |n| <= q
  {
    AtPrefix(u, w, r, n);
    MarkersApart(u + w, q, m, r, n, tag);
  }

  lemma NoneNear(far: string, near: string, edits: seq<Edit>)
    requires NonEmpty(edits)
    requires forall e, r :: e in edits && At(far + near, r, e.marker) ==> r + |e.marker| <= |far|
    ensures forall e, r :: e in edits ==> !At(near, r, e.marker)
  {
    assert (far + near)[|far|..] == near;
    forall e, r | e in edits
      ensures !At(near, r, e.marker)
    {
      if r >= 0 {
        AtSuffix(far + near, |far|, r, e.marker);
      }
    }
  }

  /** Text behind is copied up to the end of the occurrence. */
  lemma RightKept(w: string, near: string, far: string, q: nat, m: string, edits: seq<Edit>, tag: string)
    requires ValidEdits(edits, tag) && LineMarker(m, tag) && At(w + (near + far), q, m) && q < |w|
    requires |near| == if q + |m| > |w| then q + |m| - |w| else 0
    ensures OnePass(near + far, edits) == near + OnePass(far, edits)
  {
    NoneEmpty(edits, tag);
    forall e, r | e in edits && At(near + far, r, e.marker)
      ensures |near| <= r
    {
      var k :| 0 <= k < |edits| && edits[k] == e;
      BehindOccurrence(w, near + far, q, m, r, edits[k].marker, tag);
    }
    BlockCopied(near, far, edits);
  }

  lemma BehindOccurrence(w: string, v: string, q: nat, m: string, r: int, n: string, tag: string)
    requires LineMarker(m, tag) && LineMarker(n, tag) && At(w + v, q, m) && q < |w| && At(v, r, n)
    ensures q + |m| <= |w| + r
  {
    assert (w + v)[|w|..] == v;
    AtSuffix(w + v, |w|, r, n);
    MarkersApart(w + v, q, m, |w| + r, n, tag);
  }

  lemma Inner(left: string, mid: string, right: string, q: nat, m: string)
    requires At(left + mid + right, q, m) && |left| <= q && q + |m| <= |left| + |mid|
    ensures At(mid, q - |left|, m)
  {
    var s, r := left + mid + right, q - |left|;
    assert mid[r..r + |m|] == s[q..q + |m|];
  }

  lemma Outer(left: string, mid: string, right: string, r: nat, m: string)
    requires At(mid, r, m)
    ensures At(left + mid + right, |left| + r, m)
  {
    var s, q := left + mid + right, |left| + r;
    assert s[q..q + |m|] == mid[r..r + |m|];
  }

  lemma Bracketed(a: string, b: string, c: string, d: string, e: string)
    ensures a + (b + c + d) + e == (a + b) + (c + (d + e))
    ensures a + (b + c + d) + e == (a + b) + c + (d + e)
    ensures (a + b) + (c + (d + e)) == (a + b + c) + (d + e)
  {
  }

  /** What lies within the kept middle part of one text lies within that of another. */
  lemma Kept(u: string, a: string, b: string, d: string, v: string, q: nat, m: string, left: string, right: string)
    requires At((u + a) + (b + (d + v)), q, m) && |u| <= q && q + |m| <= |u + a + b + d|
    ensures exists at :: At((left + a) + b + (d + right), at, m)
  {
    Bracketed(u, a, b, d, v);
    Inner(u, a + b + d, v, q, m);
    Bracketed(left, a, b, d, right);
    Outer(left, a + b + d, right, q - |u|, m);
    assert At((left + a) + b + (d + right), |left| + (q - |u|), m);
  }

  /** A marker put together around an inserted block is still there when the rest is passed over. */
  lemma AssembledSurvives(u: string, b: string, v: string, q: nat, m: string, edits: seq<Edit>, tag: string)
    requires ValidEdits(edits, tag) && LineMarker(m, tag) && At(u + (b + v), q, m)
    requires q + |m| > |u| && q < |u| + |b|
    ensures exists at :: At(OnePass(u, edits) + b + OnePass(v, edits), at, m)
  {
    var i := if q < |u| then q else |u|;
    var j := if q + |m| > |u| + |b| then q + |m| - |u| - |b| else 0;
    Halves(u, i);
    Halves(v, j);
    AssembledInParts(u[..i], u[i..], b, v[..j], v[j..], q, m, edits, tag);
  }

  lemma Halves(s: string, i: nat)
    requires i <= |s|
    ensures s == s[..i] + s[i..]
  {
  }

  lemma AssembledInParts(u: string, a: string, b: string, d: string, v: string, q: nat, m: string,
                         edits: seq<Edit>, tag: string)
    requires ValidEdits(edits, tag) && LineMarker(m, tag) && At((u + a) + (b + (d + v)), q, m)
    requires q + |m| > |u| + |a| && q < |u| + |a| + |b|
    requires |u| == if q < |u| + |a| then q else |u| + |a|
    requires |d| == if q + |m| > |u| + |a| + |b| then q + |m| - |u| - |a| - |b| else 0
    ensures exists at :: At(OnePass(u + a, edits) + b + OnePass(d + v, edits), at, m)
  {
    LeftKept(u, a, b + (d + v), q, m, edits, tag);
    Associate(u + a, b, d + v);
    RightKept(u + a + b, d, v, q, m, edits, tag);
    Kept(u, a, b, d, v, q, m, OnePass(u, edits), OnePass(v, edits));
  }

  /** A marker that is new in the text after a round reaches over an end of the inserted block. */
  lemma NewReachesOver(s: string, p: nat, x: Edit, q: nat, m: string)
    requires At(s, p, x.marker) && !Contains(s, m) && At(Replaced(s, p, x), q, m) && m != ""
    ensures q + |m| > p && q < p + |x.block|
  {
    if q + |m| <= p || p + |x.block| <= q {
      OriginFound(s, p, x, q, m);
    }
  }

  lemma ReplacedIs(s: string, p: nat, x: Edit)
    requires At(s, p, x.marker)
    ensures Replaced(s, p, x) == s[..p] + (x.block + s[p + |x.marker|..])
  {
  }

  /** A marker that touches the inserted block leaves its tag in the one-pass substitution of the text before. */
  lemma TouchingLeavesTag(s: string, x: Edit, rest: seq<Edit>, tag: string, p: nat, k: nat, q: nat)
    requires ValidEdits([x] + rest, tag) && ValidEdits(rest, tag) && Unique(s, p, x.marker) && k < |rest|
    requires At(Replaced(s, p, x), q, rest[k].marker) && q + |rest[k].marker| > p && q < p + |x.block|
    ensures Contains(OnePass(s, [x] + rest), tag)
  {
    var u, v, m := s[..p], s[p + |x.marker|..], rest[k].marker;
    ReplacedIs(s, p, x);
    AssembledSurvives(u, x.block, v, q, m, rest, tag);
    OnePassBefore(s, x, rest, tag, p);
    var at :| At(OnePass(u, rest) + x.block + OnePass(v, rest), at, m);
    TagInMarker(OnePass(s, [x] + rest), at, m, tag);
  }

  lemma AssembledLeavesTag(s: string, x: Edit, rest: seq<Edit>, tag: string, p: nat, k: nat)
    requires ValidEdits([x] + rest, tag) && ValidEdits(rest, tag) && Unique(s, p, x.marker) && k < |rest|
    requires Contains(Replaced(s, p, x), rest[k].marker) && !Contains(s, rest[k].marker)
    ensures Contains(OnePass(s, [x] + rest), tag)
  {
    var q := FindFrom(Replaced(s, p, x), rest[k].marker, 0).value;
    NewReachesOver(s, p, x, q, rest[k].marker);
    TouchingLeavesTag(s, x, rest, tag, p, k, q);
  }

  /**
   If an accepted text lacks a marker, the one-pass substitution leaves a marker behind: the
   first marker that the rounds put together.
   */
  lemma {:induction false} MissingLeavesTag(s: string, order: seq<Edit>, tag: string)
    requires ValidEdits(order, tag) && Rewrite(s, order, tag).Some? && !Present(s, order)
    ensures Contains(OnePass(s, order), tag)
    decreases |order|
  {
    var x, rest := order[0], order[1..];
    assert order == [x] + rest;
    ValidParts(x, rest, tag);
    if p: nat :| Unique(s, p, x.marker) {
      RoundTaken(s, x, rest, tag, p);
      var s' := Replaced(s, p, x);
      if e :| e in rest && Contains(s', e.marker) && !Contains(s, e.marker) {
        var k :| 0 <= k < |rest| && rest[k] == e;
        AssembledLeavesTag(s, x, rest, tag, p, k);
      } else {
        StillMissing(s, s', x, rest);
        MissingLeavesTag(s', rest, tag);
        OnePassBefore(s, x, rest, tag, p);
        OnePassAfter(s, x, rest, tag, p);
      }
    } else {
      RoundRefused(s, x, rest, tag);
    }
  }

  lemma StillMissing(s: string, t: string, x: Edit, rest: seq<Edit>)
    requires !Present(s, [x] + rest) && Contains(s, x.marker) && NoneAssembled(s, t, rest)
    ensures !Present(t, rest)
  {
    var order := [x] + rest;
    var i :| 0 <= i < |order| && !Contains(s, order[i].marker);
    assert i > 0 && rest[i - 1] == order[i] && order[i] in rest;
  }

  /** In an accepted text every marker that is there is there once. */
  lemma PresentIsOnce(s: string, order: seq<Edit>, tag: string)
    requires ValidEdits(order, tag) && Rewrite(s, order, tag).Some? && Present(s, order)
    ensures OnceEach(s, order, tag)
  {
    forall k | 0 <= k < |order|
      ensures Count(s, order[k].marker, 0) == 1
    {
      var m := order[k].marker;
      CountsOnce(s, m, tag);
      var first := FindFrom(s, m, 0).value;
      if q :| At(s, q, m) && q != first {
        DoubleRefused(s, order, tag, k, if q < first then q else first, if q < first then first else q);
      }
    }
  }

  /**
   An accepted text becomes its one-pass substitution if and only if each marker occurs
   exactly once in the source.
   */
  lemma OnePassExactly(s: string, order: seq<Edit>, tag: string)
    requires ValidEdits(order, tag) && Rewrite(s, order, tag).Some?
    ensures Rewrite(s, order, tag) == Some(OnePass(s, order)) <==> OnceEach(s, order, tag)
  {
    if Present(s, order) {
      RewriteIsOnePass(s, order, tag);
      PresentIsOnce(s, order, tag);
    } else {
      MissingLeavesTag(s, order, tag);
      AcceptedIsClean(s, order, tag);
      if OnceEach(s, order, tag) {
        OnceIsPresent(s, order, tag);
      }
    }
  }

  /** Where an occurrence beside the inserted block was before the round. */
  function Origin(p: nat, x: Edit, q: int): int {
    if q < p then q else q - |x.block| + |x.marker|
  }

  lemma OriginFound(s: string, p: nat, x: Edit, q: nat, m: string)
    requires At(s, p, x.marker) && At(Replaced(s, p, x), q, m) && m != ""
    requires q + |m| <= p || p + |x.block| <= q
    ensures At(s, Origin(p, x, q), m)
    ensures q >= p ==> Origin(p, x, q) >= p + |x.marker|
  {
    var u, v := s[..p], s[p + |x.marker|..];
    assert Replaced(s, p, x) == u + (x.block + v);
    if q < p {
      assert s == u + s[p..];
      AtPrefix(u, x.block + v, q, m);
      AtPrefix(u, s[p..], q, m);
    } else {
      var r := q - p - |x.block|;
      assert (u + (x.block + v))[p + |x.block|..] == v;
      AtSuffix(u + (x.block + v), p + |x.block|, r, m);
      AtSuffix(s, p + |x.marker|, r, m);
    }
  }

  /** If the one-pass substitution is clean, no marker touches the block that a round inserts. */
  lemma CleanIsApart(s: string, x: Edit, rest: seq<Edit>, tag: string, p: nat, e: Edit, q: nat)
    requires ValidEdits([x] + rest, tag) && ValidEdits(rest, tag) && Unique(s, p, x.marker)
    requires !Contains(OnePass(s, [x] + rest), tag)
    requires e in rest && At(Replaced(s, p, x), q, e.marker)
    ensures q + |e.marker| <= p || p + |x.block| <= q
  {
    var k :| 0 <= k < |rest| && rest[k] == e;
    if q + |e.marker| > p && q < p + |x.block| {
      TouchingLeavesTag(s, x, rest, tag, p, k, q);
    }
  }

  /** Then a marker that was there once is there once after the round. */
  lemma CleanStaysOnce(s: string, x: Edit, rest: seq<Edit>, tag: string, p: nat, k: nat)
    requires ValidEdits([x] + rest, tag) && ValidEdits(rest, tag) && Unique(s, p, x.marker) && k < |rest|
    requires !Contains(OnePass(s, [x] + rest), tag) && Count(s, rest[k].marker, 0) == 1
    ensures Count(Replaced(s, p, x), rest[k].marker, 0) == 1
  {
    var m, t := rest[k].marker, Replaced(s, p, x);
    ValidParts(x, rest, tag);
    CountsOnce(s, m, tag);
    var origin := FindFrom(s, m, 0).value;
    Stays(s, p, x, origin, m, tag);
    var image := Shifted(p, x, origin);
    forall q | At(t, q, m)
      ensures q == image
    {
      CleanIsApart(s, x, rest, tag, p, rest[k], q);
      OriginFound(s, p, x, q, m);
    }
    CountsOnce(t, m, tag);
  }

  lemma CleanOnePassAfter(s: string, x: Edit, rest: seq<Edit>, tag: string, p: nat)
    requires ValidEdits([x] + rest, tag) && ValidEdits(rest, tag) && Unique(s, p, x.marker)
    requires !Contains(OnePass(s, [x] + rest), tag)
    ensures OnePass(Replaced(s, p, x), rest) == OnePass(s, [x] + rest)
  {
    NoneEmpty(rest, tag);
    assert Replaced(s, p, x) == s[..p] + (x.block + s[p + |x.marker|..]);
    forall e, q | e in rest && At(Replaced(s, p, x), q, e.marker)
      ensures q + |e.marker| <= p || p + |x.block| <= q
    {
      CleanIsApart(s, x, rest, tag, p, e, q);
    }
    OnePassAround(s[..p], x.block, s[p + |x.marker|..], rest);
    OnePassBefore(s, x, rest, tag, p);
  }

  lemma {:induction false} CleanIsAccepted(s: string, order: seq<Edit>, tag: string)
    requires ValidEdits(order, tag) && OnceEach(s, order, tag) && !Contains(OnePass(s, order), tag)
    ensures Rewrite(s, order, tag).Some?
    decreases |order|
  {
    if order == [] {
      OnePassCopies(s, order);
    } else {
      var x, rest := order[0], order[1..];
      assert order == [x] + rest;
      ValidParts(x, rest, tag);
      CountsOnce(s, x.marker, tag);
      assert Count(s, order[0].marker, 0) == 1;
      var p := FindFrom(s, x.marker, 0).value;
      RoundTaken(s, x, rest, tag, p);
      forall k | 0 <= k < |rest|
        ensures Count(Replaced(s, p, x), rest[k].marker, 0) == 1
      {
        assert Count(s, order[k + 1].marker, 0) == 1;
        CleanStaysOnce(s, x, rest, tag, p, k);
      }
      CleanOnePassAfter(s, x, rest, tag, p);
      CleanIsAccepted(Replaced(s, p, x), rest, tag);
    }
  }

  /** A text that holds each marker once is accepted exactly when its one-pass substitution is free of the tag. */
  lemma AcceptedExactly(s: string, order: seq<Edit>, tag: string)
    requires ValidEdits(order, tag) && OnceEach(s, order, tag)
    ensures Rewrite(s, order, tag).Some? <==> !Contains(OnePass(s, order), tag)
  {
    if Rewrite(s, order, tag).Some? {
      OnceIsPresent(s, order, tag);
      RewriteIsOnePass(s, order, tag);
    } else if !Contains(OnePass(s, order), tag) {
      CleanIsAccepted(s, order, tag);
    }
  }

  // ------------------------------------------------ blocks that assemble nothing

  /** Whole lines without a hash sign, the first of which ends in a colon. */
  predicate Firm(b: string, f: nat) {
    && 0 < f < |b| && b[f] == '\n' && b[f - 1] == ':' && b[|b| - 1] == '\n'
    && (forall i :: 0 <= i < f ==> b[i] != '\n')
    && (forall i :: 0 <= i < |b| ==> b[i] != '#')
  }

  /** A marker line that does not end in a colon. */
  predicate PlainEnd(m: string) {
    |m| >= 2 && m[|m| - 2] != ':'
  }

  lemma FirmApart(u: string, b: string, v: string, q: nat, m: string, tag: string, f: nat)
    requires LineMarker(m, tag) && PlainEnd(m) && Firm(b, f) && At(u + (b + v), q, m)
    ensures q + |m| <= |u| || |u| + |b| <= q
  {
    var s := u + (b + v);
    assert forall k :: q <= k < q + |m| ==> s[k] == s[q..q + |m|][k - q] == m[k - q];
    assert forall k :: |u| <= k < |u| + |b| ==> s[k] == b[k - |u|];
    assert forall k :: q <= k < q + |m| - 1 ==> s[k] != '\n';
    assert s[q + 6] == '#' && s[q + |m| - 1] == '\n' && s[q + |m| - 2] != ':';
    assert forall k :: |u| <= k < |u| + |b| ==> s[k] != '#';
    assert forall k :: |u| <= k < |u| + f ==> s[k] != '\n';
    assert s[|u| + f - 1] == ':' && s[|u| + f] == '\n' && s[|u| + |b| - 1] == '\n';
  }

  /** A list in which every block but the last one assembles nothing. */
  ghost predicate FirmEdits(order: seq<Edit>) {
    && (forall i :: 0 <= i < |order| ==> PlainEnd(order[i].marker))
    && (forall i :: 0 <= i < |order| - 1 ==> IsFirm(order[i].block))
  }

  ghost predicate IsFirm(b: string) {
    exists f: nat :: Firm(b, f)
  }

  lemma FirmRest(order: seq<Edit>)
    requires FirmEdits(order) && order != []
    ensures FirmEdits(order[1..])
  {
    var rest := order[1..];
    assert forall i :: 0 <= i < |rest| ==> rest[i] == order[i + 1];
  }

  lemma FirmAssemblesNothing(s: string, p: nat, x: Edit, m: string, tag: string, f: nat)
    requires At(s, p, x.marker) && Firm(x.block, f) && LineMarker(m, tag) && PlainEnd(m)
    requires Contains(Replaced(s, p, x), m)
    ensures Contains(s, m)
  {
    var q := FindFrom(Replaced(s, p, x), m, 0).value;
    assert Replaced(s, p, x) == s[..p] + (x.block + s[p + |x.marker|..]);
    FirmApart(s[..p], x.block, s[p + |x.marker|..], q, m, tag, f);
    if !Contains(s, m) {
      NewReachesOver(s, p, x, q, m);
    }
  }

  /** With such a list an accepted text holds every marker from the start. */
  lemma {:induction false} FirmIsPresent(s: string, order: seq<Edit>, tag: string)
    requires ValidEdits(order, tag) && FirmEdits(order) && Rewrite(s, order, tag).Some?
    ensures Present(s, order)
    decreases |order|
  {
    if order != [] {
      var x, rest := order[0], order[1..];
      assert order == [x] + rest;
      ValidParts(x, rest, tag);
      if p: nat :| Unique(s, p, x.marker) {
        RoundTaken(s, x, rest, tag, p);
        FirmRest(order);
        FirmIsPresent(Replaced(s, p, x), rest, tag);
        forall i | 0 < i < |order|
          ensures Contains(s, order[i].marker)
        {
          assert rest[i - 1] == order[i] && IsFirm(x.block);
          var f: nat :| Firm(x.block, f);
          FirmAssemblesNothing(s, p, x, rest[i - 1].marker, tag, f);
        }
        assert order[0] == x && Contains(s, x.marker);
      } else {
        RoundRefused(s, x, rest, tag);
      }
    }
  }

  lemma {:induction false} AcceptedIsClean(s: string, order: seq<Edit>, tag: string)
    requires ValidEdits(order, tag)
    ensures Rewrite(s, order, tag).Some? ==> !Contains(Rewrite(s, order, tag).value, tag)
    decreases |order|
  {
    if order != [] && Step(s, order[0]).Some? {
      AcceptedIsClean(Step(s, order[0]).value, order[1..], tag);
    }
  }

  lemma OnceIsPresent(s: string, edits: seq<Edit>, tag: string)
    requires ValidEdits(edits, tag) && OnceEach(s, edits, tag)
    ensures Present(s, edits)
  {
    forall i | 0 <= i < |edits|
      ensures Contains(s, edits[i].marker)
    {
      assert Count(s, edits[i].marker, 0) == 1;
    }
  }

  /** Every block is somewhere in the accepted result. */
  lemma BlockInserted(s: string, order: seq<Edit>, tag: string, k: nat)
    requires ValidEdits(order, tag) && OnceEach(s, order, tag) && Rewrite(s, order, tag).Some? && k < |order|
    ensures exists at :: At(Rewrite(s, order, tag).value, at, order[k].block)
  {
    var x, rest := order[k], order[..k] + order[k + 1..];
    FrontOfPermutation(order, k, tag);
    OnceIsPresent(s, order, tag);
    OrderIrrelevant(s, order, [x] + rest, tag);
    PresentPermuted(s, order, [x] + rest);
    RewriteIsOnePass(s, [x] + rest, tag);
    CountsOnce(s, x.marker, tag);
    assert Count(s, x.marker, 0) == 1;
    var p := FindFrom(s, x.marker, 0).value;
    OnePassBefore(s, x, rest, tag, p);
    var before := OnePass(s[..p], rest);
    assert OnePass(s, [x] + rest)[|before|..|before| + |x.block|] == x.block;
    assert At(OnePass(s, [x] + rest), |before|, x.block);
  }
}
