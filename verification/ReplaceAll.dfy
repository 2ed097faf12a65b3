/**
 find::and_replace_all: replacing every occurrence of a query in place, from left to right.
 */
module ReplaceAll {
  import opened Wrappers

  predicate OccursAt(s: string, query: string, i: nat) {
    i + |query| <= |s| && s[i..i + |query|] == query
  }

  // ---------- What is to be computed ----------

  // The parts of s between the occurrences of the query, taken from the left without overlap.
  function Parts(s: string, query: string): (parts: seq<string>)
    requires query != []
    ensures parts != []
    decreases |s|
  {
    var first := First(s, query, 0);
    if first.None? then [s] else [s[..first.value]] + Parts(s[first.value + |query|..], query)
  }

  // std::string::find from a position on
  function First(s: string, query: string, from: nat): (first: Option<nat>)
    ensures first.Some? ==> from <= first.value && OccursAt(s, query, first.value)
    ensures forall j :: from <= j && (first.Some? ==> j < first.value) ==> !OccursAt(s, query, j)
    decreases |s| + 1 - from
  {
    if from > |s| then None
    else if OccursAt(s, query, from) then Some(from)
    else First(s, query, from + 1)
  }

  function Join(parts: seq<string>, separator: string): string
    requires parts != []
  {
    if |parts| == 1 then parts[0] else parts[0] + separator + Join(parts[1..], separator)
  }

  // ---------- The loop ----------

  method Find(s: string, query: string, from: nat) returns (position: Option<nat>)
    ensures position == First(s, query, from)
  {
    var i := from;
    while i <= |s|
      invariant from <= i
      invariant First(s, query, from) == First(s, query, i)
      decreases |s| - i
    {
      if i + |query| <= |s| && s[i..i + |query|] == query {
        return Some(i);
      }
      i := i + 1;
    }
    return None;
  }

  class Text {
    var source: string
    const maxSize: nat      // std::string::max_size

    constructor (source: string, maxSize: nat)
      ensures this.source == source && this.maxSize == maxSize
    {
      this.source, this.maxSize := source, maxSize;
    }

    // A replacement that would make the string too long throws, and the string stays as it is
    // then: done up to the position. An empty query is found again after each replacement, until
    // the string is too long; with both strings empty the loop goes on for ever, see
    // LoopEndsExactlyWhen.
    method ReplaceAll(query: string, replacement: string) returns (result: int, ghost position: nat)
      requires |source| <= maxSize && (query != "" || replacement != "")
      modifies this`source
      ensures result == 1 || result == -1
      ensures result == 1 <==> query != "" && |Join(Parts(old(source), query), replacement)| <= maxSize
      ensures result == 1 ==> source == Join(Parts(old(source), query), replacement)
      ensures result == -1 ==>
                && position <= |source| <= maxSize < |source| - |query| + |replacement|
                && Done(old(source), source, position, query, replacement)
                && First(source, query, position).Some?
    {
      var at: nat := 0;
      position := 0;
      var found := Find(source, query, at);
      DoneAtStart(source, query, replacement);
      while found.Some?
        invariant at == position <= |source| <= maxSize && found == First(source, query, at)
        invariant Done(old(source), source, at, query, replacement)
        decreases if query != "" then |source| - at else maxSize - |source|
      {
        if |source| - |query| + |replacement| > maxSize {
          ResultIsTooLong(old(source), source, at, query, replacement, found.value);
          return -1, position;
        }
        ReplaceKeepsDone(old(source), source, at, query, replacement, found.value);
        source := Replace(source, found.value, query, replacement);
        at := found.value + |replacement|;
        position := at;
        found := Find(source, query, at);
      }
      NothingLeft(old(source), source, at, query, replacement);
      result := 1;
    }
  }

  // The text is done up to the position: what is left to do leads to the result. With an empty
  // query only copies of the replacement have been put in front.
  ghost predicate Done(start: string, source: string, position: nat, query: string, replacement: string) {
    && position <= |source|
    && (query != "" ==> Result(source, position, query, replacement) == Join(Parts(start, query), replacement))
    && (query == "" ==> source[position..] == start && AreCopies(source[..position], replacement))
  }

  ghost predicate AreCopies(text: string, replacement: string) {
    exists n: nat :: text == Copies(replacement, n)
  }

  function Copies(replacement: string, n: nat): string {
    if n == 0 then "" else Copies(replacement, n - 1) + replacement
  }

  lemma DoneAtStart(source: string, query: string, replacement: string)
    ensures Done(source, source, 0, query, replacement)
  {
    assert source[0..] == source && source[..0] == [] == Copies(replacement, 0);
    if query != "" {
      var result := Join(Parts(source, query), replacement);
      assert source[..0] + result == result;
    }
  }

  lemma ReplaceKeepsDone(start: string, source: string, position: nat, query: string, replacement: string, at: nat)
    requires Done(start, source, position, query, replacement) && First(source, query, position) == Some(at)
    ensures Done(start, Replace(source, at, query, replacement), at + |replacement|, query, replacement)
  {
    if query != "" {
      ReplaceKeepsResult(source, position, query, replacement, at);
    } else {
      assert OccursAt(source, query, position);
      var n: nat :| source[..position] == Copies(replacement, n);
      var after := Replace(source, at, query, replacement);
      assert after[..at + |replacement|] == Copies(replacement, n + 1);
      assert after[at + |replacement|..] == start;
    }
  }

  lemma NothingLeft(start: string, source: string, position: nat, query: string, replacement: string)
    requires Done(start, source, position, query, replacement) && First(source, query, position).None?
    ensures query != "" && source == Join(Parts(start, query), replacement)
  {
    assert OccursAt(source, "", position);
    assert source == source[..position] + source[position..];
    FirstOfRest(source[..position], source[position..], query);
  }

  // One replacement more is too long already, and the others can only make it longer.
  lemma ResultIsTooLong(start: string, source: string, position: nat, query: string, replacement: string, at: nat)
    requires Done(start, source, position, query, replacement) && First(source, query, position) == Some(at)
    requires |replacement| >= |query|
    ensures query != "" ==> |Join(Parts(start, query), replacement)| >= |source| - |query| + |replacement|
  {
    if query != "" {
      ReplaceKeepsResult(source, position, query, replacement, at);
      var rest := Replace(source, at, query, replacement)[at + |replacement|..];
      ReplacingByItself(rest, query, replacement);
      MoreIsLonger(|Parts(rest, query)| - 1, |replacement|, |query|);
    }
  }

  lemma MoreIsLonger(n: nat, r: nat, q: nat)
    requires r >= q
    ensures n * r >= n * q
  {
  }

  // std::string::replace
  function Replace(source: string, at: nat, query: string, replacement: string): (after: string)
    requires at + |query| <= |source|
    ensures |after| == |source| - |query| + |replacement|
  {
    source[..at] + replacement + source[at + |query|..]
  }

  // What the loop arrives at from here: it is done up to the position.
  function Result(source: string, position: nat, query: string, replacement: string): string
    requires query != [] && position <= |source|
  {
    source[..position] + Join(Parts(source[position..], query), replacement)
  }

  lemma ReplaceKeepsResult(source: string, position: nat, query: string, replacement: string, at: nat)
    requires query != [] && position <= |source| && First(source, query, position) == Some(at)
    ensures Result(Replace(source, at, query, replacement), at + |replacement|, query, replacement)
         == Result(source, position, query, replacement)
  {
    ReplacedParts(source, position, query, replacement, at);
    FirstInRest(source, position, query, at);
    SameResult(Replace(source, at, query, replacement), at + |replacement|, source[..position], source[position..],
               query, replacement, at - position);
  }

  lemma SameResult(after: string, position: nat, head: string, rest: string, query: string, replacement: string, i: nat)
    requires query != [] && position <= |after| && First(rest, query, 0) == Some(i)
    requires after[..position] == head + rest[..i] + replacement && after[position..] == rest[i + |query|..]
    ensures Result(after, position, query, replacement) == head + Join(Parts(rest, query), replacement)
  {
    NextPart(rest, query, replacement, i);
    Regroup(head, rest[..i], replacement, Join(Parts(rest[i + |query|..], query), replacement));
  }

  lemma Regroup<T>(a: seq<T>, b: seq<T>, c: seq<T>, d: seq<T>)
    ensures a + (b + c + d) == a + b + c + d
  {
  }

  lemma FirstInRest(source: string, position: nat, query: string, at: nat)
    requires query != [] && position <= |source| && First(source, query, position) == Some(at)
    ensures First(source[position..], query, 0) == Some(at - position)
  {
    assert source == source[..position] + source[position..];
    FirstOfRest(source[..position], source[position..], query);
  }

  lemma ReplacedParts(source: string, position: nat, query: string, replacement: string, at: nat)
    requires position <= at && at + |query| <= |source|
    ensures var after := Replace(source, at, query, replacement);
            && after[at + |replacement|..] == source[position..][at - position + |query|..]
            && after[..at + |replacement|] == source[..position] + source[position..][..at - position] + replacement
  {
    assert source[..at] == source[..position] + source[position..][..at - position];
  }

  // Looking in a text from a position on is looking in what comes after it.
  lemma FirstOfRest(head: string, rest: string, query: string)
    requires query != []
    ensures var first := First(head + rest, query, |head|);
            && first.Some? == First(rest, query, 0).Some?
            && (first.Some? ==> first.value == |head| + First(rest, query, 0).value)
  {
    forall j: nat
      ensures OccursAt(head + rest, query, |head| + j) == OccursAt(rest, query, j)
    {
      if j + |query| <= |rest| {
        assert (head + rest)[|head| + j..|head| + j + |query|] == rest[j..j + |query|];
      }
    }
    var first, inner := First(head + rest, query, |head|), First(rest, query, 0);
    if first.Some? {
      assert OccursAt(rest, query, first.value - |head|);
    }
    if inner.Some? {
      assert OccursAt(head + rest, query, |head| + inner.value);
    }
  }

  lemma NextPart(rest: string, query: string, replacement: string, i: nat)
    requires query != [] && First(rest, query, 0) == Some(i)
    ensures Join(Parts(rest, query), replacement)
         == rest[..i] + replacement + Join(Parts(rest[i + |query|..], query), replacement)
  {
    var others := Parts(rest[i + |query|..], query);
    assert ([rest[..i]] + others)[1..] == others;
  }

  // ---------- What the parts are ----------

  // The query does not occur in a part, nor does it begin in one and end in the occurrence
  // that follows.
  ghost predicate BeginsOnlyAtEnd(part: string, query: string) {
    forall j :: 0 <= j < |part| ==> !OccursAt(part + query, query, j)
  }

  /** The parts are s cut at non-overlapping occurrences of the query, each the leftmost one
      after the one before, and none is left in the last part. */
  lemma {:induction false} PartsOfSource(s: string, query: string)
    requires query != []
    ensures Join(Parts(s, query), query) == s
    ensures forall k :: 0 <= k < |Parts(s, query)| - 1 ==> BeginsOnlyAtEnd(Parts(s, query)[k], query)
    ensures First(Parts(s, query)[|Parts(s, query)| - 1], query, 0).None?
    decreases |s|
  {
    var first := First(s, query, 0);
    if first.Some? {
      var i := first.value;
      var rest := s[i + |query|..];
      PartsOfSource(rest, query);
      var others := Parts(rest, query);
      assert ([s[..i]] + others)[1..] == others;
      assert s == s[..i] + query + rest;
      NoneBefore(s, query, i);
    }
  }

  lemma NoneBefore(s: string, query: string, i: nat)
    requires First(s, query, 0) == Some(i)
    ensures BeginsOnlyAtEnd(s[..i], query)
  {
    var part := s[..i];
    assert part + query == s[..i + |query|];
    forall j: nat | j < |part|
      ensures !OccursAt(part + query, query, j)
    {
      assert !OccursAt(s, query, j);
      SliceOfPrefix(s, i + |query|, j, j + |query|);
    }
  }

  lemma SliceOfPrefix(s: string, n: nat, j: nat, k: nat)
    requires j <= k <= n <= |s|
    ensures s[..n][j..k] == s[j..k]
  {
  }

  /** There is only one such way to cut s, so the result does not depend on how it is found. */
  lemma {:induction false} PartsAreUnique(parts: seq<string>, query: string)
    requires query != [] && parts != []
    requires forall k :: 0 <= k < |parts| - 1 ==> BeginsOnlyAtEnd(parts[k], query)
    requires First(parts[|parts| - 1], query, 0).None?
    ensures Parts(Join(parts, query), query) == parts
    decreases |parts|
  {
    if |parts| > 1 {
      var part, others := parts[0], parts[1..];
      var rest := Join(others, query);
      PartsAreUnique(others, query);
      PartComesFirst(part, query, rest);
      assert parts == [part] + others;
    }
  }

  lemma PartComesFirst(part: string, query: string, rest: string)
    requires query != [] && BeginsOnlyAtEnd(part, query)
    ensures Parts(part + query + rest, query) == [part] + Parts(rest, query)
  {
    FirstAfterPart(part, query, rest);
    CutAfterPart(part, query, rest);
  }

  lemma CutAfterPart(part: string, query: string, rest: string)
    ensures (part + query + rest)[..|part|] == part && (part + query + rest)[|part| + |query|..] == rest
  {
  }

  lemma FirstAfterPart(part: string, query: string, rest: string)
    requires BeginsOnlyAtEnd(part, query)
    ensures First(part + query + rest, query, 0) == Some(|part|)
  {
    var s := part + query + rest;
    assert s[|part|..|part| + |query|] == query;
    assert OccursAt(s, query, |part|);
    forall j | 0 <= j < |part|
      ensures !OccursAt(s, query, j)
    {
      assert !OccursAt(part + query, query, j);
      assert s[j..j + |query|] == (part + query)[j..j + |query|];
    }
  }

  function TotalLength(parts: seq<string>): nat {
    if parts == [] then 0 else |parts[0]| + TotalLength(parts[1..])
  }

  lemma {:induction false} LengthOfJoin(parts: seq<string>, separator: string)
    requires parts != []
    ensures |Join(parts, separator)| == TotalLength(parts) + (|parts| - 1) * |separator|
  {
    if |parts| > 1 {
      LengthOfJoin(parts[1..], separator);
      assert (|parts| - 1) * |separator| == (|parts| - 2) * |separator| + |separator|;
    }
  }

  /** Inserted text is never scanned again: replacing once and joining with the query itself
      gives the source back, even if the replacement contains the query. */
  lemma ReplacingByItself(s: string, query: string, replacement: string)
    requires query != []
    ensures Join(Parts(s, query), query) == s
    ensures |Join(Parts(s, query), replacement)| - |s|
         == (|Parts(s, query)| - 1) * |replacement| - (|Parts(s, query)| - 1) * |query|
  {
    PartsOfSource(s, query);
    LengthOfJoin(Parts(s, query), query);
    LengthOfJoin(Parts(s, query), replacement);
  }

  // ---------- The empty query ----------

  // One round of the loop: the source and the position after it, if something was found.
  function Round(source: string, position: nat, query: string, replacement: string): Option<(string, nat)> {
    var found := First(source, query, position);
    if found.None? then None
    else Some((Replace(source, found.value, query, replacement), found.value + |replacement|))
  }

  function Rounds(source: string, query: string, replacement: string, k: nat): Option<(string, nat)> {
    if k == 0 then Some((source, 0))
    else
      var before := Rounds(source, query, replacement, k - 1);
      if before.None? then None else Round(before.value.0, before.value.1, query, replacement)
  }

  /** An empty query is found again after every round, right behind the text that was put in. */
  lemma {:induction false} EmptyQueryNeverStops(source: string, replacement: string, k: nat)
    ensures Rounds(source, "", replacement, k).Some?
    ensures var (s, position) := Rounds(source, "", replacement, k).value;
            position <= |s| && First(s, "", position) == Some(position)
  {
    if k > 0 {
      EmptyQueryNeverStops(source, replacement, k - 1);
    }
    var (s, position) := Rounds(source, "", replacement, k).value;
    assert OccursAt(s, "", position);
  }

  /** However long the string may become, the loop ends if and only if the query is not empty. */
  lemma LoopEndsExactlyWhen(source: string, query: string, replacement: string)
    ensures (exists k :: Rounds(source, query, replacement, k).None?) <==> query != ""
  {
    if query == "" {
      forall k: nat
        ensures Rounds(source, query, replacement, k).Some?
      {
        EmptyQueryNeverStops(source, replacement, k);
      }
    } else {
      RoundsRunOut(source, query, replacement, |source| + 1);
    }
  }

  // What is left to scan shrinks by at least the query's length in each round.
  lemma {:induction false} RoundsRunOut(source: string, query: string, replacement: string, k: nat)
    requires query != ""
    ensures var now := Rounds(source, query, replacement, k);
            now.Some? ==> now.value.1 <= |now.value.0| && |now.value.0| - now.value.1 + k <= |source|
  {
    if k > 0 {
      RoundsRunOut(source, query, replacement, k - 1);
    }
  }
}
