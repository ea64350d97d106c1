/**
 * `re.finditer` over an alternation of named groups, for any rule table:
 * the alternation is tried at each position; when it matches, the match is
 * taken and the scan goes on after it, otherwise the scan moves one
 * character on.  The rule table is a parameter `rules`, the function trying
 * the alternation at a position.
 */
module Scanning {
  import opened Wrappers

  /** A match object: the name of the group that matched and its span. */
  datatype Span<K> = Span(kind: K, start: nat, end: nat)

  /** `rules` only ever matches a non-empty text at the position it is tried at. */
  predicate Sound<K>(rules: (string, nat) -> Option<Span<K>>, code: string) {
    forall i :: 0 <= i < |code| && rules(code, i).Some? ==> rules(code, i).value.start == i < rules(code, i).value.end <= |code|
  }

  /** The spans lie within `from..to`, in order and without overlapping. */
  predicate Ordered<K>(ms: seq<Span<K>>, from: nat, to: nat) {
    && (forall k :: 0 <= k < |ms| ==> from <= ms[k].start < ms[k].end <= to)
    && (forall j, k :: 0 <= j < k < |ms| ==> ms[j].end <= ms[k].start)
  }

  /** Position `p` lies inside one of the spans. */
  predicate Covered<K>(ms: seq<Span<K>>, p: nat) {
    exists k :: 0 <= k < |ms| && ms[k].start <= p < ms[k].end
  }

  /** Where the last span ends (`from` when there is none). */
  function EndOf<K>(ms: seq<Span<K>>, from: nat): nat {
    if ms == [] then from else ms[|ms| - 1].end
  }

  /** `ms` is what `finditer` finds in `code[from..to]`: each match is the
      alternation's match at its start, and the alternation matches at no
      position that no match covers. */
  ghost predicate Found<K>(rules: (string, nat) -> Option<Span<K>>, code: string, ms: seq<Span<K>>, from: nat, to: nat) {
    && to <= |code|
    && Ordered(ms, from, to)
    && (forall k :: 0 <= k < |ms| ==> rules(code, ms[k].start) == Some(ms[k]))
    && (forall p :: from <= p < to && !Covered(ms, p) ==> rules(code, p).None?)
  }

  /** `regex.finditer(code)` */
  method FindIter<K>(rules: (string, nat) -> Option<Span<K>>, code: string) returns (ms: seq<Span<K>>)
    requires Sound(rules, code)
    ensures Found(rules, code, ms, 0, |code|)
  {
    ms := [];
    var pos := 0;
    while pos < |code|
      invariant pos <= |code|
      invariant Found(rules, code, ms, 0, pos)
      invariant EndOf(ms, 0) <= pos
      decreases |code| - pos
    {
      var found := rules(code, pos);
      match found
      case None =>
        FoundPassOver(rules, code, ms, pos);
        pos := pos + 1;
      case Some(m) =>
        FoundAppend(rules, code, ms, pos, m);
        ms := ms + [m];
        pos := m.end;
    }
  }

  /** Moving past a position where no rule matches. */
  lemma FoundPassOver<K>(rules: (string, nat) -> Option<Span<K>>, code: string, ms: seq<Span<K>>, pos: nat)
    requires Found(rules, code, ms, 0, pos) && EndOf(ms, 0) <= pos < |code|
    requires rules(code, pos).None?
    ensures Found(rules, code, ms, 0, pos + 1)
  {
  }

  /** Taking the match found at `pos`. */
  lemma FoundAppend<K>(rules: (string, nat) -> Option<Span<K>>, code: string, ms: seq<Span<K>>, pos: nat, m: Span<K>)
    requires Sound(rules, code)
    requires Found(rules, code, ms, 0, pos) && EndOf(ms, 0) <= pos < |code|
    requires rules(code, pos) == Some(m)
    ensures Found(rules, code, ms + [m], 0, m.end) && EndOf(ms + [m], 0) == m.end
  {
    assert m.start == pos < m.end <= |code|;
    OrderedSnoc(ms, m, pos);
    MatchesSnoc(rules, code, ms, m);
    forall p | 0 <= p < m.end && (Covered(ms, p) || pos <= p) ensures Covered(ms + [m], p) {
      CoveredSnoc(ms, m, p);
    }
  }

  /** A span after the last one, and after `to`, keeps the spans in order. */
  lemma OrderedSnoc<K>(ms: seq<Span<K>>, m: Span<K>, to: nat)
    requires Ordered(ms, 0, to) && EndOf(ms, 0) <= to <= m.start < m.end
    ensures Ordered(ms + [m], 0, m.end)
  {
    var ms' := ms + [m];
    assert forall k :: 0 <= k < |ms| ==> ms'[k] == ms[k];
    assert ms'[|ms|] == m;
  }

  /** Each span added is the alternation's match at its start. */
  lemma MatchesSnoc<K>(rules: (string, nat) -> Option<Span<K>>, code: string, ms: seq<Span<K>>, m: Span<K>)
    requires forall k :: 0 <= k < |ms| ==> rules(code, ms[k].start) == Some(ms[k])
    requires rules(code, m.start) == Some(m)
    ensures forall k :: 0 <= k < |ms + [m]| ==> rules(code, (ms + [m])[k].start) == Some((ms + [m])[k])
  {
    var ms' := ms + [m];
    assert forall k :: 0 <= k < |ms| ==> ms'[k] == ms[k];
    assert ms'[|ms|] == m;
  }

  /** A position covered before a span is added, or inside it, is covered after. */
  lemma CoveredSnoc<K>(ms: seq<Span<K>>, m: Span<K>, p: nat)
    requires Covered(ms, p) || m.start <= p < m.end
    ensures Covered(ms + [m], p)
  {
    var ms' := ms + [m];
    if m.start <= p < m.end {
      assert ms'[|ms|].start <= p < ms'[|ms|].end;
    } else {
      var k :| 0 <= k < |ms| && ms[k].start <= p < ms[k].end;
      assert ms'[k].start <= p < ms'[k].end;
    }
  }

  /** What is found after the first match. */
  lemma FoundTail<K>(rules: (string, nat) -> Option<Span<K>>, code: string, ms: seq<Span<K>>, from: nat, to: nat)
    requires Found(rules, code, ms, from, to) && ms != []
    ensures Found(rules, code, ms[1..], ms[0].end, to)
  {
    var tl := ms[1..];
    assert forall k :: 0 <= k < |tl| ==> tl[k] == ms[k + 1];
    forall p | ms[0].end <= p < to && Covered(ms, p) ensures Covered(tl, p) {
      var k :| 0 <= k < |ms| && ms[k].start <= p < ms[k].end;
      assert k > 0 && tl[k - 1] == ms[k];
    }
  }

  /** `finditer`'s result is determined by the text: two sequences of
      matches that are both found in the same span are equal. */
  lemma {:induction false} FoundUnique<K>(rules: (string, nat) -> Option<Span<K>>, code: string, a: seq<Span<K>>, b: seq<Span<K>>, from: nat, to: nat)
    requires Found(rules, code, a, from, to) && Found(rules, code, b, from, to)
    ensures a == b
    decreases |a|
  {
    if a != [] && b != [] {
      assert a[0].start == b[0].start by {
        FirstStartIsFirst(rules, code, a, b, from, to);
        FirstStartIsFirst(rules, code, b, a, from, to);
      }
      assert a[0] == b[0];
      FoundTail(rules, code, a, from, to);
      FoundTail(rules, code, b, from, to);
      FoundUnique(rules, code, a[1..], b[1..], a[0].end, to);
      assert a == [a[0]] + a[1..] && b == [b[0]] + b[1..];
    } else {
      if a != [] { FoundNonEmpty(rules, code, a, b, from, to); }
      if b != [] { FoundNonEmpty(rules, code, b, a, from, to); }
    }
  }

  /** When one scan of a span finds a match, so does every other. */
  lemma FoundNonEmpty<K>(rules: (string, nat) -> Option<Span<K>>, code: string, a: seq<Span<K>>, b: seq<Span<K>>, from: nat, to: nat)
    requires Found(rules, code, a, from, to) && Found(rules, code, b, from, to) && a != []
    ensures b != []
  {
    assert rules(code, a[0].start).Some?;
    assert Covered(b, a[0].start);
  }

  /** A match found by one scan cannot begin before the first match of
      another scan of the same span. */
  lemma FirstStartIsFirst<K>(rules: (string, nat) -> Option<Span<K>>, code: string, a: seq<Span<K>>, b: seq<Span<K>>, from: nat, to: nat)
    requires Found(rules, code, a, from, to) && Found(rules, code, b, from, to) && a != [] && b != []
    ensures b[0].start <= a[0].start
  {
    assert rules(code, a[0].start).Some?;
    assert Covered(b, a[0].start);
    var k :| 0 <= k < |b| && b[k].start <= a[0].start < b[k].end;
    if k > 0 {
      assert b[0].end <= b[k].start;
    }
  }
}
