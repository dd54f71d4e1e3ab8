/**
 UpdateProperties as the putting half of a lens on server.properties
 (internal/mc/properties.go:26-84): what is put is what is then read, and
 everything else stays as it was.
 */
module PropertyUpdate {
  import opened Prelude
  import opened Properties

  type Changes = map<string, string>

  predicate GoodChanges(changes: Changes) {
    forall k :: k in changes ==> GoodKey(k) && GoodValue(changes[k])
  }

  /** A line together with what ParseLine finds in it. */
  datatype Line = Line(text: string, entry: Option<PropEntry>)

  function Read(text: string): Line { Line(text, ParseLine(text)) }

  function ReadAll(texts: seq<string>): seq<Line> {
    seq(|texts|, i requires 0 <= i < |texts| => Read(texts[i]))
  }

  function Texts(lines: seq<Line>): seq<string> {
    seq(|lines|, i requires 0 <= i < |lines| => lines[i].text)
  }

  /** Reading the texts again finds the same entries. */
  predicate Faithful(lines: seq<Line>) {
    forall i :: 0 <= i < |lines| ==> lines[i] == Read(lines[i].text) && SingleLine(lines[i].text)
  }

  lemma FaithfulReadsBack(lines: seq<Line>)
    requires Faithful(lines)
    ensures ReadAll(Texts(lines)) == lines && AllSingle(Texts(lines))
  {
  }

  lemma ReadAllIsFaithful(texts: seq<string>)
    requires AllSingle(texts)
    ensures Faithful(ReadAll(texts))
  {
  }

  // --- the update -------------------------------------------------------------------

  predicate Rewrites(l: Line, rest: Changes) { l.entry.Some? && l.entry.value.key in rest }

  /** The line UpdateProperties writes for a key and its value. */
  function Written(k: string, v: string): Line { Line(k + "=" + v, Some(PropEntry(k, v))) }

  function LineAfter(l: Line, rest: Changes): Line {
    if Rewrites(l, rest) then Written(l.entry.value.key, rest[l.entry.value.key]) else l
  }

  /** What is left to change after the loop has passed a line. */
  function After(l: Line, rest: Changes): Changes {
    if Rewrites(l, rest) then rest - {l.entry.value.key} else rest
  }

  function Rewritten(lines: seq<Line>, rest: Changes): (r: seq<Line>)
    ensures |r| == |lines|
  {
    if lines == [] then [] else [LineAfter(lines[0], rest)] + Rewritten(lines[1..], After(lines[0], rest))
  }

  function Left(lines: seq<Line>, rest: Changes): Changes {
    if lines == [] then rest else Left(lines[1..], After(lines[0], rest))
  }

  predicate KeysIn(keys: seq<string>, rest: Changes) { forall i :: 0 <= i < |keys| ==> keys[i] in rest }

  function Appended(keys: seq<string>, rest: Changes): seq<Line>
    requires KeysIn(keys, rest)
  {
    if keys == [] then [] else [Written(keys[0], rest[keys[0]])] + Appended(keys[1..], rest)
  }

  function Blank(): Line { Line("", None) }

  function DropTrailingBlank(lines: seq<Line>): seq<Line> {
    if lines != [] && lines[|lines| - 1].text == "" then lines[..|lines| - 1] else lines
  }

  /** The lines after an update whose new keys are appended in the order `keys`. */
  function Updated(lines: seq<Line>, changes: Changes, keys: seq<string>): seq<Line>
    requires KeysIn(keys, Left(lines, changes))
  {
    if keys == [] then Rewritten(lines, changes)
    else DropTrailingBlank(Rewritten(lines, changes)) + Appended(keys, Left(lines, changes)) + [Blank()]
  }

  ghost predicate SortedKeysOf(keys: seq<string>, rest: Changes) {
    StrictlyInOrder(keys) && Elements(keys) == rest.Keys && KeysIn(keys, rest)
  }

  /** Says that `updated` is the result of the update; sorting leaves only one. */
  ghost predicate IsUpdate(content: string, changes: Changes, updated: string) {
    exists keys: seq<string> ::
      SortedKeysOf(keys, Left(ReadAll(Split(content)), changes)) &&
      updated == Join(Texts(Updated(ReadAll(Split(content)), changes, keys)))
  }

  method SortedKeys(rest: Changes) returns (keys: seq<string>)
    ensures SortedKeysOf(keys, rest)
  {
    var unsorted: seq<string> := [];
    var todo := rest.Keys;
    while todo != {}
      invariant todo <= rest.Keys
      invariant Elements(unsorted) == rest.Keys - todo
      invariant forall i, j :: 0 <= i < j < |unsorted| ==> unsorted[i] != unsorted[j]
    {
      var k :| k in todo;
      assert k !in Elements(unsorted);
      ElementsAppend(unsorted, k);
      unsorted := unsorted + [k];
      todo := todo - {k};
    }
    var a := new string[|unsorted|](i requires 0 <= i < |unsorted| => unsorted[i]);
    assert a[..] == unsorted;
    InsertionSort(a);
    keys := a[..];
    SortedPermutation(unsorted, keys);
    assert forall i :: 0 <= i < |keys| ==> keys[i] in Elements(keys);
  }

  lemma ElementsAppend(keys: seq<string>, k: string)
    ensures Elements(keys + [k]) == Elements(keys) + {k}
  {
    forall x | x in Elements(keys) + {k} ensures x in Elements(keys + [k]) {
      if x in Elements(keys) {
        var i :| 0 <= i < |keys| && keys[i] == x;
        assert (keys + [k])[i] == x;
      } else {
        assert (keys + [k])[|keys|] == x;
      }
    }
  }

  lemma SortedPermutation(a: seq<string>, b: seq<string>)
    requires multiset(a) == multiset(b) && InOrder(b)
    requires forall i, j :: 0 <= i < j < |a| ==> a[i] != a[j]
    ensures Elements(b) == Elements(a) && StrictlyInOrder(b)
  {
    assert forall x :: x in a <==> x in multiset(a);
    assert forall x :: x in b <==> x in multiset(b);
    assert forall x :: x in Elements(a) <==> x in a;
    assert forall x :: x in Elements(b) <==> x in b;
    DistinctCounts(a);
    forall i, j | 0 <= i < j < |b| ensures Less(b[i], b[j]) {
      LessTotal(b[i], b[j]);
      if b[i] == b[j] {
        TwiceCounts(b, i, j);
      }
    }
  }

  lemma {:induction false} DistinctCounts(a: seq<string>)
    requires forall i, j :: 0 <= i < j < |a| ==> a[i] != a[j]
    ensures forall x :: multiset(a)[x] <= 1
  {
    if a != [] {
      DistinctCounts(a[1..]);
      assert a == [a[0]] + a[1..];
      assert a[0] !in a[1..];
    }
  }

  lemma TwiceCounts(b: seq<string>, i: int, j: int)
    requires 0 <= i < j < |b| && b[i] == b[j]
    ensures multiset(b)[b[i]] >= 2
  {
    assert b == b[..i] + [b[i]] + b[i + 1..j] + [b[j]] + b[j + 1..];
  }

  /** The state of the rewriting loop before line `i`. */
  predicate PassedTo(i: nat, read: seq<Line>, changes: Changes, lines: seq<string>, remaining: Changes) {
    && i <= |read|
    && lines == Texts(Rewritten(read[..i], changes)) + Texts(read[i..])
    && remaining == Left(read[..i], changes)
  }

  lemma PassLine(i: nat, read: seq<Line>, changes: Changes, lines: seq<string>, remaining: Changes)
    requires i < |read| && PassedTo(i, read, changes, lines, remaining)
    ensures |lines| == |read| && lines[i] == read[i].text
    ensures PassedTo(i + 1, read, changes, lines[i := LineAfter(read[i], remaining).text], After(read[i], remaining))
  {
    var l, done, ahead := read[i], Rewritten(read[..i], changes), Texts(read[i..]);
    assert read[..i + 1] == read[..i] + [l];
    RewrittenAppend(read[..i], [l], changes);
    RewrittenLine(l, remaining);
    TextsAppend(done, [LineAfter(l, remaining)]);
    ReplaceNext(Texts(done), ahead, LineAfter(l, remaining).text);
    assert ahead[1..] == Texts(read[i + 1..]);
  }

  lemma PassStarts(before: seq<string>, changes: Changes)
    ensures PassedTo(0, ReadAll(before), changes, before, changes)
  {
    var read := ReadAll(before);
    assert Texts(read) == before && read[..0] == [] && read[0..] == read;
  }

  lemma PassEnds(read: seq<Line>, changes: Changes, lines: seq<string>, remaining: Changes)
    requires PassedTo(|read|, read, changes, lines, remaining)
    ensures lines == Texts(Rewritten(read, changes)) && remaining == Left(read, changes)
  {
    assert read[..|read|] == read && read[|read|..] == [];
  }

  lemma ReadAllAt(texts: seq<string>, i: nat)
    requires i < |texts|
    ensures ReadAll(texts)[i].text == texts[i] && ReadAll(texts)[i].entry == ParseLine(texts[i])
  {
  }

  lemma RewrittenLine(l: Line, rest: Changes)
    ensures Rewritten([l], rest) == [LineAfter(l, rest)] && Left([l], rest) == After(l, rest)
  {
  }

  lemma ReplaceNext<T>(done: seq<T>, ahead: seq<T>, x: T)
    requires ahead != []
    ensures (done + ahead)[|done|] == ahead[0]
    ensures (done + ahead)[|done| := x] == done + [x] + ahead[1..]
  {
  }

  /** The first loop: known keys are rewritten where they stand. */
  method RewriteLines(before: seq<string>, changes: Changes) returns (lines: seq<string>, remaining: Changes)
    ensures lines == Texts(Rewritten(ReadAll(before), changes)) && remaining == Left(ReadAll(before), changes)
  {
    remaining, lines := changes, before;
    ghost var read := ReadAll(before);
    PassStarts(before, changes);
    for i := 0 to |lines|
      invariant |lines| == |before| && PassedTo(i, read, changes, lines, remaining)
    {
      PassLine(i, read, changes, lines, remaining);
      var e := ReadLine(lines[i]);
      ReadAllAt(before, i);
      if e.Some? && e.value.key in remaining {
        lines := lines[i := e.value.key + "=" + remaining[e.value.key]];
        remaining := remaining - {e.value.key};
      } else {
        assert lines == lines[i := lines[i]];
      }
    }
    PassEnds(read, changes, lines, remaining);
  }

  lemma TextsAppend(a: seq<Line>, b: seq<Line>)
    ensures Texts(a + b) == Texts(a) + Texts(b)
  {
  }

  /** The second loop: keys without a line are appended in order. */
  method AppendLines(before: seq<string>, keys: seq<string>, remaining: Changes) returns (lines: seq<string>)
    requires KeysIn(keys, remaining)
    ensures lines == before + Texts(Appended(keys, remaining))
  {
    lines := before;
    for i := 0 to |keys|
      invariant lines + Texts(Appended(keys[i..], remaining)) == before + Texts(Appended(keys, remaining))
    {
      assert keys[i..][1..] == keys[i + 1..];
      TextsAppend([Written(keys[i], remaining[keys[i]])], Appended(keys[i + 1..], remaining));
      lines := lines + [keys[i] + "=" + remaining[keys[i]]];
    }
  }

  method UpdateProperties(content: string, changes: Changes) returns (updated: string)
    ensures IsUpdate(content, changes, updated)
  {
    var before := Split(content);
    ghost var read := ReadAll(before);
    var lines, remaining := RewriteLines(before, changes);
    var keys := SortedKeys(remaining);
    ghost var rewritten := Rewritten(read, changes);
    if remaining != map[] {
      assert keys != [] by {
        var k :| k in remaining;
        assert k in Elements(keys);
      }
      if |lines| > 0 && lines[|lines| - 1] == "" {
        lines := lines[..|lines| - 1];
      }
      assert lines == Texts(DropTrailingBlank(rewritten));
      lines := AppendLines(lines, keys, remaining);
      lines := lines + [""];
      TextsAppend(DropTrailingBlank(rewritten), Appended(keys, remaining));
      TextsAppend(DropTrailingBlank(rewritten) + Appended(keys, remaining), [Blank()]);
    } else {
      NoKeysLeft(keys, remaining);
    }
    assert lines == Texts(Updated(read, changes, keys));
    updated := Join(lines);
  }

  /** The sorted keys, and with them the result, are unique. */
  lemma UpdateIsUnique(content: string, changes: Changes, a: string, b: string)
    requires IsUpdate(content, changes, a) && IsUpdate(content, changes, b)
    ensures a == b
  {
    var read := ReadAll(Split(content));
    var ka :| SortedKeysOf(ka, Left(read, changes)) && a == Join(Texts(Updated(read, changes, ka)));
    var kb :| SortedKeysOf(kb, Left(read, changes)) && b == Join(Texts(Updated(read, changes, kb)));
    StrictOrderIsUnique(ka, kb);
  }

  // --- reading what was put ------------------------------------------------------------

  predicate Has(l: Line, k: string) { l.entry.Some? && l.entry.value.key == k }

  predicate Mentions(lines: seq<Line>, k: string) {
    lines != [] && (Has(lines[0], k) || Mentions(lines[1..], k))
  }

  /** The value of the first line with the key. */
  function Value(lines: seq<Line>, k: string): string {
    if lines == [] then "" else if Has(lines[0], k) then lines[0].entry.value.value else Value(lines[1..], k)
  }

  lemma {:induction false} ValueIsLookup(texts: seq<string>, k: string)
    ensures Value(ReadAll(texts), k) == Lookup(texts, k)
  {
    if texts != [] {
      ValueIsLookup(texts[1..], k);
      assert ReadAll(texts)[1..] == ReadAll(texts[1..]);
    }
  }

  /** What is left to do are the changes whose key no line mentions. */
  lemma {:induction false} LeftAreUnmentioned(lines: seq<Line>, rest: Changes, k: string)
    ensures k in Left(lines, rest) <==> k in rest && !Mentions(lines, k)
    ensures k in Left(lines, rest) ==> Left(lines, rest)[k] == rest[k]
  {
    if lines != [] {
      LeftAreUnmentioned(lines[1..], After(lines[0], rest), k);
    }
  }

  /** After the rewriting loop a changed key that some line mentions has its new value; other keys keep theirs. */
  lemma {:induction false} RewrittenReads(lines: seq<Line>, rest: Changes, k: string)
    ensures Mentions(Rewritten(lines, rest), k) <==> Mentions(lines, k)
    ensures Value(Rewritten(lines, rest), k)
         == if k in rest && Mentions(lines, k) then rest[k] else Value(lines, k)
  {
    if lines != [] {
      RewrittenReads(lines[1..], After(lines[0], rest), k);
      assert Rewritten(lines, rest)[1..] == Rewritten(lines[1..], After(lines[0], rest));
    }
  }

  lemma {:induction false} ValueAppend(a: seq<Line>, b: seq<Line>, k: string)
    ensures Value(a + b, k) == if Mentions(a, k) then Value(a, k) else Value(b, k)
    ensures Mentions(a + b, k) <==> Mentions(a, k) || Mentions(b, k)
  {
    if a == [] {
      assert a + b == b;
    } else {
      ValueAppend(a[1..], b, k);
      assert (a + b)[1..] == a[1..] + b;
    }
  }

  lemma {:induction false} AppendedReads(keys: seq<string>, rest: Changes, k: string)
    requires KeysIn(keys, rest)
    ensures Mentions(Appended(keys, rest), k) <==> k in keys
    ensures k in keys ==> Value(Appended(keys, rest), k) == rest[k]
  {
    if keys != [] {
      AppendedReads(keys[1..], rest, k);
      assert Appended(keys, rest)[1..] == Appended(keys[1..], rest);
      assert keys == [keys[0]] + keys[1..];
    }
  }

  lemma {:induction false} UnmentionedHasNoValue(lines: seq<Line>, k: string)
    ensures !Mentions(lines, k) ==> Value(lines, k) == ""
  {
    if lines != [] {
      UnmentionedHasNoValue(lines[1..], k);
    }
  }

  lemma BlankReadsAsNothing(lines: seq<Line>, k: string)
    ensures Value(lines + [Blank()], k) == Value(lines, k)
    ensures Mentions(lines + [Blank()], k) <==> Mentions(lines, k)
  {
    ValueAppend(lines, [Blank()], k);
    assert !Mentions([Blank()], k);
    UnmentionedHasNoValue(lines, k);
    UnmentionedHasNoValue([Blank()], k);
  }

  lemma DropTrailingBlankReads(lines: seq<Line>, k: string)
    requires Faithful(lines)
    ensures Value(DropTrailingBlank(lines), k) == Value(lines, k)
    ensures Mentions(DropTrailingBlank(lines), k) <==> Mentions(lines, k)
  {
    if lines != [] && lines[|lines| - 1].text == "" {
      assert lines == lines[..|lines| - 1] + [Blank()] by {
        assert lines[|lines| - 1] == Read("");
      }
      BlankReadsAsNothing(lines[..|lines| - 1], k);
    }
  }

  lemma {:induction false} RewrittenIsFaithful(lines: seq<Line>, rest: Changes)
    requires GoodChanges(rest) && Faithful(lines)
    ensures Faithful(Rewritten(lines, rest))
  {
    if lines != [] {
      RewrittenIsFaithful(lines[1..], After(lines[0], rest));
      WrittenIsFaithful(lines[0], rest);
    }
  }

  lemma WrittenReadsBack(k: string, v: string)
    requires GoodKey(k) && GoodValue(v)
    ensures Written(k, v) == Read(k + "=" + v) && SingleLine(k + "=" + v)
  {
    WrittenLineReadsBack(k, v);
  }

  lemma WrittenIsFaithful(l: Line, rest: Changes)
    requires GoodChanges(rest) && Faithful([l])
    ensures Faithful([LineAfter(l, rest)])
  {
    assert [l][0] == Read(l.text) && SingleLine(l.text);
    if Rewrites(l, rest) {
      WrittenReadsBack(l.entry.value.key, rest[l.entry.value.key]);
    }
  }

  lemma {:induction false} AppendedIsFaithful(keys: seq<string>, rest: Changes)
    requires GoodChanges(rest) && KeysIn(keys, rest)
    ensures Faithful(Appended(keys, rest))
  {
    if keys != [] {
      AppendedIsFaithful(keys[1..], rest);
      WrittenReadsBack(keys[0], rest[keys[0]]);
      FaithfulFirst(Written(keys[0], rest[keys[0]]), Appended(keys[1..], rest));
    }
  }

  lemma FaithfulFirst(l: Line, rest: seq<Line>)
    requires l == Read(l.text) && SingleLine(l.text) && Faithful(rest)
    ensures Faithful([l] + rest)
  {
  }

  lemma GoodLeft(lines: seq<Line>, changes: Changes)
    requires GoodChanges(changes)
    ensures GoodChanges(Left(lines, changes))
  {
  }

  lemma UpdatedIsFaithful(lines: seq<Line>, changes: Changes, keys: seq<string>)
    requires GoodChanges(changes) && Faithful(lines) && KeysIn(keys, Left(lines, changes))
    ensures Faithful(Updated(lines, changes, keys)) && Faithful(Rewritten(lines, changes))
  {
    RewrittenIsFaithful(lines, changes);
    GoodLeft(lines, changes);
    AppendedIsFaithful(keys, Left(lines, changes));
    assert Faithful([Blank()]) by {
      assert Read("") == Blank();
    }
  }

  lemma InElements(keys: seq<string>, k: string)
    ensures k in keys <==> k in Elements(keys)
  {
  }

  lemma UpdatedReads(lines: seq<Line>, changes: Changes, keys: seq<string>, k: string)
    requires GoodChanges(changes) && Faithful(lines) && SortedKeysOf(keys, Left(lines, changes))
    ensures Value(Updated(lines, changes, keys), k) == if k in changes then changes[k] else Value(lines, k)
    ensures Mentions(Updated(lines, changes, keys), k) <==> Mentions(lines, k) || k in changes
  {
    RewrittenReads(lines, changes, k);
    LeftAreUnmentioned(lines, changes, k);
    UnmentionedHasNoValue(lines, k);
    InElements(keys, k);
    if keys != [] {
      UpdatedIsFaithful(lines, changes, keys);
      GrownReads(Rewritten(lines, changes), Left(lines, changes), keys, k);
    }
  }

  lemma GrownReads(body: seq<Line>, left: Changes, keys: seq<string>, k: string)
    requires KeysIn(keys, left) && Faithful(body)
    ensures Value(DropTrailingBlank(body) + Appended(keys, left) + [Blank()], k)
         == if Mentions(body, k) then Value(body, k) else if k in keys then left[k] else ""
    ensures Mentions(DropTrailingBlank(body) + Appended(keys, left) + [Blank()], k) <==> Mentions(body, k) || k in keys
  {
    var short, more := DropTrailingBlank(body), Appended(keys, left);
    BlankReadsAsNothing(short + more, k);
    ValueAppend(short, more, k);
    DropTrailingBlankReads(body, k);
    AppendedReads(keys, left, k);
    UnmentionedHasNoValue(more, k);
  }

  /** The lines of an updated text are the updated lines. */
  lemma UpdatedText(content: string, changes: Changes, updated: string) returns (keys: seq<string>)
    requires GoodChanges(changes) && IsUpdate(content, changes, updated)
    ensures Faithful(ReadAll(Split(content))) && SortedKeysOf(keys, Left(ReadAll(Split(content)), changes))
    ensures ReadAll(Split(updated)) == Updated(ReadAll(Split(content)), changes, keys)
  {
    var read := ReadAll(Split(content));
    keys :| SortedKeysOf(keys, Left(read, changes)) && updated == Join(Texts(Updated(read, changes, keys)));
    SplitGivesSingleLines(content);
    ReadAllIsFaithful(Split(content));
    UpdatedIsFaithful(read, changes, keys);
    FaithfulReadsBack(Updated(read, changes, keys));
    SplitJoin(Texts(Updated(read, changes, keys)));
  }

  /**
   Put, then get: after an update with good changes every changed key reads
   back as it was set, and every other key reads as before.
   */
  lemma PutGet(content: string, changes: Changes, updated: string, k: string)
    requires GoodChanges(changes) && IsUpdate(content, changes, updated)
    ensures PropValue(updated, k) == if k in changes then changes[k] else PropValue(content, k)
  {
    var keys := UpdatedText(content, changes, updated);
    UpdatedReads(ReadAll(Split(content)), changes, keys, k);
    ValueIsLookup(Split(content), k);
    ValueIsLookup(Split(updated), k);
  }

  /** What PropValue returns is always a good value, and is empty for a key no line can carry. */
  lemma {:induction false} LookupIsGood(lines: seq<string>, k: string)
    requires AllSingle(lines)
    ensures GoodValue(Lookup(lines, k)) && (!GoodKey(k) ==> Lookup(lines, k) == "")
  {
    if lines != [] {
      if HasKey(lines[0], k) {
        ParsedEntriesAreGood(lines[0]);
      } else {
        LookupIsGood(lines[1..], k);
      }
    }
  }

  /**
   Setting one key, whatever the key and the value are: the value is read back
   exactly when it has no newline and no trailing space and the key is trimmed,
   has no "=" or newline and does not start like a comment. A key that cannot
   be carried reads back as "", which is right only for the empty value.
   */
  lemma ReadsBackIff(content: string, k: string, v: string, updated: string)
    requires IsUpdate(content, map[k := v], updated)
    ensures PropValue(updated, k) == v <==> GoodValue(v) && (GoodKey(k) || v == "")
  {
    SplitGivesSingleLines(updated);
    LookupIsGood(Split(updated), k);
    if GoodKey(k) && GoodValue(v) {
      PutGet(content, map[k := v], updated, k);
    }
  }

  // --- what an update leaves alone --------------------------------------------------

  /** The i-th line is the first with its key, and that key is changed. */
  predicate IsChangedAt(lines: seq<Line>, changes: Changes, i: nat)
    requires i < |lines|
  {
    Rewrites(lines[i], changes) && !Mentions(lines[..i], lines[i].entry.value.key)
  }

  lemma {:induction false} RewrittenAt(lines: seq<Line>, rest: Changes, i: nat)
    requires i < |lines|
    ensures Rewritten(lines, rest)[i] == if IsChangedAt(lines, rest, i) then LineAfter(lines[i], rest) else lines[i]
  {
    if i > 0 {
      RewrittenAt(lines[1..], After(lines[0], rest), i - 1);
      assert lines[1..][..i - 1] == lines[..i][1..];
    }
  }

  /** How many leading lines stay in place: all, but for a trailing blank line before appended keys. */
  function StayingLines(lines: seq<Line>, changes: Changes): (n: nat)
    ensures n <= |lines|
  {
    if Left(lines, changes) != map[] && lines != [] && Rewritten(lines, changes)[|lines| - 1].text == ""
    then |lines| - 1 else |lines|
  }

  /**
   Every line that stays is the old one, except the first line of a changed
   key, which becomes "key=value"; behind them come the new keys in order.
   */
  lemma UntouchedLinesSurvive(content: string, changes: Changes, updated: string)
    requires GoodChanges(changes) && IsUpdate(content, changes, updated)
    ensures var before, after := ReadAll(Split(content)), ReadAll(Split(updated));
            var n := StayingLines(before, changes);
            && n <= |after|
            && (forall i :: 0 <= i < n ==>
                 after[i] == if IsChangedAt(before, changes, i) then LineAfter(before[i], changes) else before[i])
            && (Left(before, changes) == map[] ==> |after| == n)
            && (exists keys :: SortedKeysOf(keys, Left(before, changes)) &&
                 after[n..] == if keys == [] then [] else Appended(keys, Left(before, changes)) + [Blank()])
  {
    var keys := UpdatedText(content, changes, updated);
    UpdatedShape(ReadAll(Split(content)), changes, keys);
  }

  /** The lines that stay, and what follows them. */
  lemma UpdatedShape(before: seq<Line>, changes: Changes, keys: seq<string>)
    requires SortedKeysOf(keys, Left(before, changes))
    ensures var after, n := Updated(before, changes, keys), StayingLines(before, changes);
            && n <= |after|
            && (forall i :: 0 <= i < n ==>
                 after[i] == if IsChangedAt(before, changes, i) then LineAfter(before[i], changes) else before[i])
            && (Left(before, changes) == map[] ==> |after| == n)
            && after[n..] == if keys == [] then [] else Appended(keys, Left(before, changes)) + [Blank()]
  {
    NoKeysLeft(keys, Left(before, changes));
    UpdatedSplits(before, changes, keys);
    forall i | 0 <= i < StayingLines(before, changes)
      ensures Rewritten(before, changes)[i]
           == if IsChangedAt(before, changes, i) then LineAfter(before[i], changes) else before[i]
    {
      RewrittenAt(before, changes, i);
    }
  }

  lemma UpdatedSplits(before: seq<Line>, changes: Changes, keys: seq<string>)
    requires SortedKeysOf(keys, Left(before, changes))
    ensures Updated(before, changes, keys)
         == Rewritten(before, changes)[..StayingLines(before, changes)]
            + (if keys == [] then [] else Appended(keys, Left(before, changes)) + [Blank()])
  {
  }

  lemma NoKeysLeft(keys: seq<string>, rest: Changes)
    requires SortedKeysOf(keys, rest)
    ensures keys == [] <==> rest == map[]
  {
    if keys == [] {
      assert rest.Keys == {};
    } else {
      assert keys[0] in rest;
    }
  }

  // --- updating twice -----------------------------------------------------------------

  lemma {:induction false} RewrittenAppend(a: seq<Line>, b: seq<Line>, rest: Changes)
    ensures Left(a + b, rest) == Left(b, Left(a, rest))
    ensures Rewritten(a + b, rest) == Rewritten(a, rest) + Rewritten(b, Left(a, rest))
  {
    if a == [] {
      assert a + b == b;
    } else {
      RewrittenAppend(a[1..], b, After(a[0], rest));
      assert (a + b)[0] == a[0] && (a + b)[1..] == a[1..] + b;
      var first, next := [LineAfter(a[0], rest)], After(a[0], rest);
      Reassociate(first, Rewritten(a[1..], next), Rewritten(b, Left(a, rest)));
    }
  }

  /** Rewriting for `a` and then for `b`, with the same keys, is rewriting for `b`. */
  lemma {:induction false} RewrittenTwice(lines: seq<Line>, a: Changes, b: Changes)
    requires a.Keys == b.Keys
    ensures Left(lines, a).Keys == Left(lines, b).Keys == Left(Rewritten(lines, a), b).Keys
    ensures Left(Rewritten(lines, a), b) == Left(lines, b)
    ensures Rewritten(Rewritten(lines, a), b) == Rewritten(lines, b)
  {
    if lines != [] {
      RewrittenTwice(lines[1..], After(lines[0], a), After(lines[0], b));
      assert Rewritten(lines, a)[1..] == Rewritten(lines[1..], After(lines[0], a));
    }
  }

  lemma {:induction false} AppendedAgrees(keys: seq<string>, a: Changes, b: Changes)
    requires KeysIn(keys, a) && KeysIn(keys, b)
    requires forall i :: 0 <= i < |keys| ==> a[keys[i]] == b[keys[i]]
    ensures Appended(keys, a) == Appended(keys, b)
  {
    if keys != [] {
      AppendedAgrees(keys[1..], a, b);
    }
  }

  lemma {:induction false} AppendedThenRewritten(keys: seq<string>, a: Changes, b: Changes)
    requires StrictlyInOrder(keys) && KeysIn(keys, a) && KeysIn(keys, b)
    ensures Rewritten(Appended(keys, a), b) == Appended(keys, b)
    ensures Left(Appended(keys, a), b) == b - Elements(keys)
  {
    if keys != [] {
      var k := keys[0];
      var rest := b - {k};
      forall i | 0 < i < |keys| ensures keys[i] in rest {
        LessTotal(k, keys[i]);
      }
      AppendedThenRewritten(keys[1..], a, rest);
      AppendedAgrees(keys[1..], rest, b);
      assert Appended(keys, a)[1..] == Appended(keys[1..], a);
      assert Elements(keys) == {k} + Elements(keys[1..]) by { ElementsSplit(keys); }
    }
  }

  lemma ElementsSplit(keys: seq<string>)
    requires keys != []
    ensures Elements(keys) == {keys[0]} + Elements(keys[1..])
  {
  }

  lemma BlankIsRead(l: Line)
    requires l == Read(l.text) && l.text == ""
    ensures l == Blank()
  {
  }

  lemma BlankAtEnd(lines: seq<Line>)
    requires Faithful(lines) && lines != [] && lines[|lines| - 1].text == ""
    ensures lines == lines[..|lines| - 1] + [Blank()]
  {
    BlankIsRead(lines[|lines| - 1]);
  }

  lemma RewrittenBeforeBlank(lines: seq<Line>, changes: Changes)
    ensures Left(lines + [Blank()], changes) == Left(lines, changes)
    ensures Rewritten(lines + [Blank()], changes) == Rewritten(lines, changes) + [Blank()]
  {
    RewrittenAppend(lines, [Blank()], changes);
    RewrittenLine(Blank(), Left(lines, changes));
  }

  lemma BlankPasses(lines: seq<Line>, changes: Changes)
    requires Faithful(lines)
    ensures Left(DropTrailingBlank(lines), changes) == Left(lines, changes)
    ensures Rewritten(DropTrailingBlank(lines), changes)
         == Rewritten(lines, changes)[..|DropTrailingBlank(lines)|]
  {
    if lines != [] && lines[|lines| - 1].text == "" {
      BlankAtEnd(lines);
      RewrittenBeforeBlank(lines[..|lines| - 1], changes);
    } else {
      assert Rewritten(lines, changes)[..|lines|] == Rewritten(lines, changes);
    }
  }

  lemma {:induction false} BlankStaysBlank(lines: seq<Line>, rest: Changes)
    requires Faithful(lines) && lines != []
    ensures Rewritten(lines, rest)[|lines| - 1].text == "" <==> lines[|lines| - 1].text == ""
  {
    RewrittenAt(lines, rest, |lines| - 1);
    if lines[|lines| - 1].text == "" {
      assert lines[|lines| - 1] == Read("") == Blank();
    }
  }

  lemma DroppedAlike(lines: seq<Line>, a: Changes, b: Changes)
    requires GoodChanges(a) && Faithful(lines) && a.Keys == b.Keys
    ensures Left(DropTrailingBlank(Rewritten(lines, a)), b) == Left(lines, b)
    ensures Rewritten(DropTrailingBlank(Rewritten(lines, a)), b) == DropTrailingBlank(Rewritten(lines, b))
  {
    RewrittenTwice(lines, a, b);
    RewrittenIsFaithful(lines, a);
    BlankPasses(Rewritten(lines, a), b);
    if lines != [] {
      BlankStaysBlank(lines, a);
      BlankStaysBlank(lines, b);
    }
  }

  lemma GrownThenRewritten(short: seq<Line>, keys: seq<string>, a: Changes, b: Changes, changes: Changes)
    requires SortedKeysOf(keys, a) && SortedKeysOf(keys, b) && Left(short, changes) == b
    ensures Left(short + Appended(keys, a) + [Blank()], changes) == map[]
    ensures Rewritten(short + Appended(keys, a) + [Blank()], changes)
         == Rewritten(short, changes) + Appended(keys, b) + [Blank()]
  {
    RewrittenAppend(short + Appended(keys, a), [Blank()], changes);
    RewrittenAppend(short, Appended(keys, a), changes);
    AppendedThenRewritten(keys, a, b);
    assert b - Elements(keys) == map[];
  }

  lemma UpdatedTwice(lines: seq<Line>, a: Changes, b: Changes, ka: seq<string>, kb: seq<string>)
    requires GoodChanges(a) && Faithful(lines) && a.Keys == b.Keys
    requires SortedKeysOf(ka, Left(lines, a)) && SortedKeysOf(kb, Left(Updated(lines, a, ka), b))
    ensures SortedKeysOf(ka, Left(lines, b))
    ensures Updated(Updated(lines, a, ka), b, kb) == Updated(lines, b, ka)
  {
    RewrittenTwice(lines, a, b);
    NoKeysLeft(ka, Left(lines, a));
    NoKeysLeft(kb, Left(Updated(lines, a, ka), b));
    if ka != [] {
      DroppedAlike(lines, a, b);
      GrownThenRewritten(DropTrailingBlank(Rewritten(lines, a)), ka, Left(lines, a), Left(lines, b), b);
    } else {
      assert Left(lines, b).Keys == {};
      assert Left(Updated(lines, a, ka), b) == map[];
    }
  }

  /** Put, then put the same keys again: only the second update shows in the text. */
  lemma PutPut(content: string, a: Changes, b: Changes, once: string, twice: string, direct: string)
    requires GoodChanges(a) && GoodChanges(b) && a.Keys == b.Keys
    requires IsUpdate(content, a, once) && IsUpdate(once, b, twice) && IsUpdate(content, b, direct)
    ensures twice == direct
  {
    var lines := ReadAll(Split(content));
    var ka := UpdatedText(content, a, once);
    var kb := UpdatedText(once, b, twice);
    UpdatedTwice(lines, a, b, ka, kb);
    var kd :| SortedKeysOf(kd, Left(lines, b)) && direct == Join(Texts(Updated(lines, b, kd)));
    StrictOrderIsUnique(ka, kd);
    var kt :| && SortedKeysOf(kt, Left(ReadAll(Split(once)), b))
              && twice == Join(Texts(Updated(ReadAll(Split(once)), b, kt)));
    StrictOrderIsUnique(kb, kt);
  }

  /** Applying the same change twice equals applying it once. */
  lemma UpdateIsIdempotent(content: string, changes: Changes, once: string, twice: string)
    requires GoodChanges(changes) && IsUpdate(content, changes, once) && IsUpdate(once, changes, twice)
    ensures twice == once
  {
    PutPut(content, changes, changes, once, twice, once);
  }

  lemma {:induction false} NothingRewritten(lines: seq<Line>)
    ensures Left(lines, map[]) == map[] && Rewritten(lines, map[]) == lines
  {
    if lines != [] {
      NothingRewritten(lines[1..]);
    }
  }

  /** An update without changes gives the text back, byte for byte. */
  lemma NoChangeIsVerbatim(content: string, updated: string)
    requires IsUpdate(content, map[], updated)
    ensures updated == content
  {
    var lines := ReadAll(Split(content));
    var keys :| SortedKeysOf(keys, Left(lines, map[])) && updated == Join(Texts(Updated(lines, map[], keys)));
    NothingRewritten(lines);
    NoKeysLeft(keys, map[]);
    assert Texts(lines) == Split(content);
    JoinSplit(content);
  }
}
