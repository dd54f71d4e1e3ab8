/**
 server.properties as text (internal/mc/properties.go): ParseProperties and
 PropValue read it, UpdateProperties writes it back line by line.
 */
module Properties {
  import opened Prelude

  // --- lines ----------------------------------------------------------------------

  /** strings.Split(content, "\n"). */
  function Split(s: string): (lines: seq<string>)
    ensures |lines| > 0
  {
    if s == "" then [""]
    else
      var rest := Split(s[1..]);
      if s[0] == '\n' then [""] + rest else [[s[0]] + rest[0]] + rest[1..]
  }

  function Join(lines: seq<string>): string {
    if lines == [] then "" else if |lines| == 1 then lines[0] else lines[0] + "\n" + Join(lines[1..])
  }

  predicate SingleLine(s: string) { '\n' !in s }

  predicate AllSingle(lines: seq<string>) { forall i :: 0 <= i < |lines| ==> SingleLine(lines[i]) }

  lemma {:induction false} SplitGivesSingleLines(s: string)
    ensures AllSingle(Split(s))
  {
    if s != "" {
      SplitGivesSingleLines(s[1..]);
    }
  }

  lemma {:induction false} JoinSplit(s: string)
    ensures Join(Split(s)) == s
  {
    if s != "" {
      JoinSplit(s[1..]);
      var rest := Split(s[1..]);
      assert s == [s[0]] + s[1..];
      if s[0] == '\n' {
        assert ([""] + rest)[1..] == rest;
      } else {
        assert ([[s[0]] + rest[0]] + rest[1..])[1..] == rest[1..];
      }
    }
  }

  lemma SplitCons(c: char, t: string)
    requires c != '\n'
    ensures Split([c] + t) == [[c] + Split(t)[0]] + Split(t)[1..]
  {
    assert ([c] + t)[1..] == t;
  }

  lemma HeadAndTail(h: string, t: seq<string>)
    ensures ([h] + t)[0] == h && ([h] + t)[1..] == t
  {
  }

  lemma {:induction false} SplitPrefix(line: string, s: string)
    requires SingleLine(line)
    ensures Split(line + s) == [line + Split(s)[0]] + Split(s)[1..]
  {
    if line == "" {
      assert line + s == s && line + Split(s)[0] == Split(s)[0];
    } else {
      var c, rest := line[0], line[1..];
      assert line == [c] + rest && c in line;
      SplitPrefix(rest, s);
      Reassociate([c], rest, s);
      SplitCons(c, rest + s);
      HeadAndTail(rest + Split(s)[0], Split(s)[1..]);
      Reassociate([c], rest, Split(s)[0]);
    }
  }

  lemma {:induction false} SplitJoin(lines: seq<string>)
    requires lines != [] && AllSingle(lines)
    ensures Split(Join(lines)) == lines
  {
    if |lines| == 1 {
      SplitPrefix(lines[0], "");
      assert lines[0] + "" == lines[0];
    } else {
      SplitJoin(lines[1..]);
      var tail := "\n" + Join(lines[1..]);
      assert tail[1..] == Join(lines[1..]);
      SplitPrefix(lines[0], tail);
      assert lines[0] + "\n" + Join(lines[1..]) == lines[0] + tail;
      assert lines[0] + "" == lines[0];
    }
  }

  // --- one line ---------------------------------------------------------------------

  /** unicode.IsSpace, which strings.TrimSpace strips. */
  predicate IsSpace(c: char) {
    c in "\t\n\U{000B}\U{000C}\r \U{0085}\U{00A0}\U{1680}\U{2028}\U{2029}\U{202F}\U{205F}\U{3000}" ||
    '\U{2000}' <= c <= '\U{200A}'
  }

  function TrimLeft(s: string): string {
    if s != "" && IsSpace(s[0]) then TrimLeft(s[1..]) else s
  }

  function TrimRight(s: string): string {
    if s != "" && IsSpace(s[|s| - 1]) then TrimRight(s[..|s| - 1]) else s
  }

  function Trim(s: string): string { TrimLeft(TrimRight(s)) }

  predicate NoLeadingSpace(s: string) { s == "" || !IsSpace(s[0]) }

  predicate NoTrailingSpace(s: string) { s == "" || !IsSpace(s[|s| - 1]) }

  predicate Trimmed(s: string) { NoLeadingSpace(s) && NoTrailingSpace(s) }

  lemma {:induction false} TrimLeftWorks(s: string)
    ensures NoLeadingSpace(TrimLeft(s)) && (NoTrailingSpace(s) ==> NoTrailingSpace(TrimLeft(s)))
    ensures forall c :: c in TrimLeft(s) ==> c in s
  {
    if s != "" && IsSpace(s[0]) {
      TrimLeftWorks(s[1..]);
    }
  }

  lemma {:induction false} TrimRightWorks(s: string)
    ensures NoTrailingSpace(TrimRight(s))
    ensures forall c :: c in TrimRight(s) ==> c in s
  {
    if s != "" && IsSpace(s[|s| - 1]) {
      TrimRightWorks(s[..|s| - 1]);
    }
  }

  lemma TrimWorks(s: string)
    ensures Trimmed(Trim(s))
    ensures forall c :: c in Trim(s) ==> c in s
  {
    TrimRightWorks(s);
    TrimLeftWorks(TrimRight(s));
  }

  datatype PropEntry = PropEntry(key: string, value: string)

  /** Position of the first "=", or the length. */
  function FirstEquals(s: string): (i: nat)
    ensures i <= |s|
    ensures forall k :: 0 <= k < i ==> s[k] != '='
    ensures i < |s| ==> s[i] == '='
  {
    if s == "" || s[0] == '=' then 0 else 1 + FirstEquals(s[1..])
  }

  predicate IsComment(trimmed: string) { trimmed != "" && (trimmed[0] == '#' || trimmed[0] == '!') }

  function ParseLine(line: string): Option<PropEntry> {
    var trimmed := Trim(line);
    if trimmed == "" || IsComment(trimmed) then None
    else
      var i := FirstEquals(trimmed);
      if i == |trimmed| then None else Some(PropEntry(Trim(trimmed[..i]), trimmed[i + 1..]))
  }

  predicate GoodKey(k: string) { SingleLine(k) && Trimmed(k) && '=' !in k && !IsComment(k) }

  predicate GoodValue(v: string) { SingleLine(v) && NoTrailingSpace(v) }

  lemma CutIsGood(trimmed: string, i: nat)
    requires SingleLine(trimmed) && Trimmed(trimmed) && !IsComment(trimmed)
    requires i < |trimmed| && trimmed[i] == '=' && forall k :: 0 <= k < i ==> trimmed[k] != '='
    ensures GoodKey(Trim(trimmed[..i])) && GoodValue(trimmed[i + 1..])
  {
    TrimWorks(trimmed[..i]);
    if i > 0 {
      LeadingCharSurvives(trimmed[..i]);
    }
    var value := trimmed[i + 1..];
    if value != "" {
      assert value[|value| - 1] == trimmed[|trimmed| - 1];
    }
  }

  /** Whatever the line, a key and a value read from it are good ones. */
  lemma ParsedEntriesAreGood(line: string)
    requires SingleLine(line) && ParseLine(line).Some?
    ensures GoodKey(ParseLine(line).value.key) && GoodValue(ParseLine(line).value.value)
  {
    TrimWorks(line);
    CutIsGood(Trim(line), FirstEquals(Trim(line)));
  }

  lemma {:induction false} LeadingCharSurvives(s: string)
    requires s != "" && !IsSpace(s[0])
    ensures Trim(s) != "" && Trim(s)[0] == s[0]
    decreases |s|
  {
    if IsSpace(s[|s| - 1]) {
      LeadingCharSurvives(s[..|s| - 1]);
    }
  }

  lemma WrittenLineIsTrimmed(k: string, v: string)
    requires GoodKey(k) && GoodValue(v)
    ensures Trimmed(k + "=" + v)
  {
    var line := k + "=" + v;
    assert line[0] == if k == "" then '=' else k[0];
    assert line[|line| - 1] == if v == "" then '=' else v[|v| - 1];
  }

  /** Every good pair is read back from the line that UpdateProperties writes for it. */
  lemma WrittenLineReadsBack(k: string, v: string)
    requires GoodKey(k) && GoodValue(v)
    ensures ParseLine(k + "=" + v) == Some(PropEntry(k, v)) && SingleLine(k + "=" + v)
  {
    var line := k + "=" + v;
    WrittenLineIsTrimmed(k, v);
    assert line[|k|] == '=';
    assert FirstEquals(line) == |k| by {
      assert forall j :: 0 <= j < |k| ==> line[j] == k[j] && k[j] in k;
    }
    assert line[..|k|] == k && line[|k| + 1..] == v;
  }

  predicate AllSpace(s: string) { forall i :: 0 <= i < |s| ==> IsSpace(s[i]) }

  lemma {:induction false} TrimLeftSplits(s: string) returns (a: string)
    ensures s == a + TrimLeft(s) && AllSpace(a)
  {
    a := "";
    if s != "" && IsSpace(s[0]) {
      var rest := TrimLeftSplits(s[1..]);
      a := [s[0]] + rest;
    }
  }

  lemma {:induction false} TrimRightSplits(s: string) returns (c: string)
    ensures s == TrimRight(s) + c && AllSpace(c)
  {
    c := "";
    if s != "" && IsSpace(s[|s| - 1]) {
      var rest := TrimRightSplits(s[..|s| - 1]);
      c := rest + [s[|s| - 1]];
      assert s == s[..|s| - 1] + [s[|s| - 1]];
    }
  }

  /** Trimming takes away spaces at both ends. */
  lemma TrimSplits(s: string) returns (a: string, c: string)
    ensures s == a + Trim(s) + c && AllSpace(a) && AllSpace(c)
  {
    c := TrimRightSplits(s);
    a := TrimLeftSplits(TrimRight(s));
  }

  lemma {:induction false} TrimLeftDrops(a: string, m: string)
    requires AllSpace(a) && NoLeadingSpace(m)
    ensures TrimLeft(a + m) == m
  {
    if a == "" {
      assert a + m == m;
    } else {
      TrimLeftDrops(a[1..], m);
      assert (a + m)[1..] == a[1..] + m;
    }
  }

  lemma {:induction false} TrimRightDrops(m: string, c: string)
    requires AllSpace(c) && NoTrailingSpace(m)
    ensures TrimRight(m + c) == m
  {
    if c == "" {
      assert m + c == m;
    } else {
      TrimRightDrops(m, c[..|c| - 1]);
      assert (m + c)[..|m + c| - 1] == m + c[..|c| - 1];
    }
  }

  /** And all of them. */
  lemma TrimDrops(a: string, m: string, c: string)
    requires AllSpace(a) && AllSpace(c) && Trimmed(m)
    ensures Trim(a + m + c) == m
  {
    if m == "" {
      assert a + m + c == "" + (a + c);
      TrimRightDrops("", a + c);
    } else {
      assert NoTrailingSpace(a + m);
      TrimRightDrops(a + m, c);
      TrimLeftDrops(a, m);
    }
  }

  /** A line that sets the key: spaces may stand before the key, around it and at the end, but not before the value. */
  predicate Sets(line: string, a: string, k: string, b: string, v: string, c: string) {
    && line == a + (k + b + "=" + v) + c && AllSpace(a) && AllSpace(b) && AllSpace(c)
    && Trimmed(k) && '=' !in k && !IsComment(k) && NoTrailingSpace(v) && (k == "" ==> b == "")
  }

  lemma CutAtFirstEquals(k: string, b: string, v: string)
    requires '=' !in k && AllSpace(b)
    ensures var m := k + b + "=" + v;
            FirstEquals(m) == |k + b| && m[..|k + b|] == k + b && m[|k + b| + 1..] == v
  {
    var m := k + b + "=" + v;
    assert m[|k + b|] == '=';
    forall j | 0 <= j < |k + b| ensures m[j] != '=' {
      if j < |k| {
        assert m[j] == k[j] && k[j] in k;
      } else {
        assert m[j] == b[j - |k|] && IsSpace(b[j - |k|]);
      }
    }
  }

  lemma SettingIsTrimmed(k: string, b: string, v: string)
    requires Trimmed(k) && !IsComment(k) && NoTrailingSpace(v) && (k == "" ==> b == "")
    ensures var m := k + b + "=" + v; Trimmed(m) && m != "" && !IsComment(m)
  {
    var m := k + b + "=" + v;
    assert m[0] == if k == "" then '=' else k[0];
    assert m[|m| - 1] == if v == "" then '=' else v[|v| - 1];
  }

  lemma KeyWithSpaceBehind(k: string, b: string)
    requires Trimmed(k) && AllSpace(b)
    ensures Trim(k + b) == k
  {
    assert "" + k + b == k + b;
    TrimDrops("", k, b);
  }

  lemma SettingIsCut(m: string, k: string, b: string, v: string)
    requires m == k + b + "=" + v && Trimmed(k) && '=' !in k && AllSpace(b)
    ensures var i := FirstEquals(m); i < |m| && Trim(m[..i]) == k && m[i + 1..] == v
  {
    CutAtFirstEquals(k, b, v);
    KeyWithSpaceBehind(k, b);
  }

  /** Every line that sets a key is read so. */
  lemma SettingLineIsRead(line: string, a: string, k: string, b: string, v: string, c: string)
    requires Sets(line, a, k, b, v, c)
    ensures ParseLine(line) == Some(PropEntry(k, v))
  {
    var m := k + b + "=" + v;
    SettingIsTrimmed(k, b, v);
    assert Trim(line) == m by {
      TrimDrops(a, m, c);
    }
    SettingIsCut(m, k, b, v);
  }

  /** Of a text that begins without space, trimming takes away only what is behind. */
  lemma TrimSplitsBehind(s: string) returns (b: string)
    requires NoLeadingSpace(s)
    ensures s == Trim(s) + b && AllSpace(b) && (Trim(s) == "" ==> s == "")
  {
    b := TrimRightSplits(s);
    if s != "" {
      LeadingCharSurvives(s);
      assert TrimRight(s) == "" || TrimRight(s)[0] == s[0];
    }
  }

  lemma CutParts(m: string, i: nat) returns (b: string)
    requires Trimmed(m) && i < |m| && m[i] == '='
    ensures m == Trim(m[..i]) + b + "=" + m[i + 1..] && AllSpace(b) && (Trim(m[..i]) == "" ==> b == "")
    ensures NoTrailingSpace(m[i + 1..])
  {
    b := TrimSplitsBehind(m[..i]);
    assert m == m[..i] + "=" + m[i + 1..];
    var v := m[i + 1..];
    assert v != "" ==> v[|v| - 1] == m[|m| - 1];
  }

  lemma KeyIsClean(m: string, i: nat)
    requires Trimmed(m) && !IsComment(m) && i <= |m| && forall k :: 0 <= k < i ==> m[k] != '='
    ensures var k := Trim(m[..i]); Trimmed(k) && '=' !in k && !IsComment(k)
  {
    TrimWorks(m[..i]);
    if i > 0 {
      LeadingCharSurvives(m[..i]);
    }
  }

  /** And only such lines are read: all others are blank, comments or without "=". */
  lemma ReadLineSets(line: string) returns (a: string, b: string, c: string)
    requires ParseLine(line).Some?
    ensures Sets(line, a, ParseLine(line).value.key, b, ParseLine(line).value.value, c)
  {
    var m := Trim(line);
    TrimWorks(line);
    a, c := TrimSplits(line);
    b := CutParts(m, FirstEquals(m));
    KeyIsClean(m, FirstEquals(m));
  }

  /** For instance with spaces around the sign: the key loses them, the value keeps the one before it. */
  lemma SpacedSetting()
    ensures ParseLine(" motd = x ") == Some(PropEntry("motd", " x"))
  {
    assert " motd = x " == " " + ("motd" + " " + "=" + " x") + " ";
    SettingLineIsRead(" motd = x ", " ", "motd", " ", " x", " ");
  }

  // --- reading -------------------------------------------------------------------------

  function EntriesIn(line: string): seq<PropEntry> {
    match ParseLine(line)
    case None => []
    case Some(e) => [e]
  }

  function ParseLines(lines: seq<string>): seq<PropEntry> {
    if lines == [] then [] else EntriesIn(lines[0]) + ParseLines(lines[1..])
  }

  /** The part of the loop bodies of ParseProperties and UpdateProperties that looks at one line. */
  method ReadLine(line: string) returns (e: Option<PropEntry>)
    ensures e == ParseLine(line)
  {
    var trimmed := Trim(line);
    if trimmed == "" || IsComment(trimmed) {
      return None;
    }
    var eq := FirstEquals(trimmed);
    if eq == |trimmed| {
      return None;
    }
    return Some(PropEntry(Trim(trimmed[..eq]), trimmed[eq + 1..]));
  }

  lemma ParseLinesStep(out: seq<PropEntry>, lines: seq<string>, i: nat)
    requires i < |lines|
    ensures out + ParseLines(lines[i..])
         == (if ParseLine(lines[i]).Some? then out + [ParseLine(lines[i]).value] else out) + ParseLines(lines[i + 1..])
  {
    assert lines[i..][1..] == lines[i + 1..];
    Reassociate(out, EntriesIn(lines[i]), ParseLines(lines[i + 1..]));
    assert out + [] == out;
  }

  method ParseProperties(content: string) returns (out: seq<PropEntry>)
    ensures out == ParseLines(Split(content))
  {
    out := [];
    var lines := Split(content);
    for i := 0 to |lines|
      invariant ParseLines(lines) == out + ParseLines(lines[i..])
    {
      var e := ReadLine(lines[i]);
      ParseLinesStep(out, lines, i);
      if e.Some? {
        out := out + [e.value];
      }
    }
  }

  predicate HasKey(line: string, k: string) { ParseLine(line).Some? && ParseLine(line).value.key == k }

  /** The value of the first line with the key, or "". */
  function Lookup(lines: seq<string>, k: string): string {
    if lines == [] then ""
    else if HasKey(lines[0], k) then ParseLine(lines[0]).value.value
    else Lookup(lines[1..], k)
  }

  function PropValue(content: string, k: string): string { Lookup(Split(content), k) }

  method PropValueOf(content: string, key: string) returns (value: string)
    ensures value == PropValue(content, key)
  {
    var entries := ParseProperties(content);
    LookupIsFirstEntry(Split(content), key);
    for i := 0 to |entries|
      invariant FirstValue(entries, key) == FirstValue(entries[i..], key)
    {
      if entries[i].key == key {
        return entries[i].value;
      }
    }
    return "";
  }

  function FirstValue(entries: seq<PropEntry>, k: string): string {
    if entries == [] then "" else if entries[0].key == k then entries[0].value else FirstValue(entries[1..], k)
  }

  lemma {:induction false} LookupIsFirstEntry(lines: seq<string>, k: string)
    ensures Lookup(lines, k) == FirstValue(ParseLines(lines), k)
  {
    if lines != [] {
      LookupIsFirstEntry(lines[1..], k);
      if ParseLine(lines[0]).Some? {
        assert ParseLines(lines) == [ParseLine(lines[0]).value] + ParseLines(lines[1..]);
      } else {
        assert ParseLines(lines) == ParseLines(lines[1..]);
      }
    }
  }

  // --- sorted keys ---------------------------------------------------------------------

  /** Go's "<" on strings. */
  predicate Less(a: string, b: string) {
    b != "" && (a == "" || a[0] < b[0] || (a[0] == b[0] && Less(a[1..], b[1..])))
  }

  predicate Leq(a: string, b: string) { !Less(b, a) }

  lemma {:induction false} LessTotal(a: string, b: string)
    ensures !(Less(a, b) && Less(b, a))
    ensures a != b ==> Less(a, b) || Less(b, a)
    ensures a == b ==> !Less(a, b)
  {
    if a != "" && b != "" && a[0] == b[0] {
      LessTotal(a[1..], b[1..]);
      assert a == [a[0]] + a[1..] && b == [b[0]] + b[1..];
    }
  }

  lemma {:induction false} LessTransitive(a: string, b: string, c: string)
    requires Less(a, b) && Less(b, c)
    ensures Less(a, c)
  {
    if a != "" && a[0] == b[0] && b[0] == c[0] {
      LessTransitive(a[1..], b[1..], c[1..]);
    }
  }

  lemma LeqTransitive(a: string, b: string, c: string)
    requires Leq(a, b) && Leq(b, c)
    ensures Leq(a, c)
  {
    LessTotal(a, b);
    LessTotal(b, c);
    LessTotal(a, c);
    if a != b && b != c {
      LessTransitive(a, b, c);
    }
  }

  predicate InOrder(keys: seq<string>) {
    forall i, j :: 0 <= i < j < |keys| ==> Leq(keys[i], keys[j])
  }

  predicate StrictlyInOrder(keys: seq<string>) {
    forall i, j :: 0 <= i < j < |keys| ==> Less(keys[i], keys[j])
  }

  function Elements(keys: seq<string>): set<string> { set i | 0 <= i < |keys| :: keys[i] }

  /** Everything up to `i` is in order, except that the key at `j` is still moving down. */
  predicate OrderedButFor(keys: seq<string>, i: int, j: int) {
    forall a, b :: 0 <= a < b <= i < |keys| && b != j ==> Leq(keys[a], keys[b])
  }

  lemma SwapDown(keys: seq<string>, i: int, j: int)
    requires 0 < j <= i < |keys| && OrderedButFor(keys, i, j) && Less(keys[j], keys[j - 1])
    ensures OrderedButFor(keys[j := keys[j - 1]][j - 1 := keys[j]], i, j - 1)
  {
    var after := keys[j := keys[j - 1]][j - 1 := keys[j]];
    forall a, b | 0 <= a < b <= i && b != j - 1 ensures Leq(after[a], after[b]) {
      if b == j && a == j - 1 {
        LessTotal(keys[j], keys[j - 1]);
      }
    }
  }

  lemma StopsInOrder(keys: seq<string>, i: int, j: int)
    requires 0 <= j <= i < |keys| && OrderedButFor(keys, i, j)
    requires j > 0 ==> Leq(keys[j - 1], keys[j])
    ensures InOrder(keys[..i + 1])
  {
    forall a | 0 <= a < j ensures Leq(keys[a], keys[j]) {
      if a < j - 1 {
        LeqTransitive(keys[a], keys[j - 1], keys[j]);
      }
    }
  }

  /** The insertion sort of sortedKeys, in place. */
  method InsertionSort(keys: array<string>)
    modifies keys
    ensures InOrder(keys[..]) && multiset(keys[..]) == old(multiset(keys[..]))
  {
    var i := 1;
    while i < keys.Length
      invariant 1 <= i && (i <= keys.Length || keys.Length == 0)
      invariant InOrder(keys[..if i <= keys.Length then i else 0])
      invariant multiset(keys[..]) == old(multiset(keys[..]))
    {
      SiftDown(keys, i);
      i := i + 1;
    }
    assert keys.Length > 0 ==> keys[..i] == keys[..];
  }

  method SiftDown(keys: array<string>, i: nat)
    requires i < keys.Length && InOrder(keys[..i])
    modifies keys
    ensures InOrder(keys[..i + 1]) && multiset(keys[..]) == old(multiset(keys[..]))
  {
    var j := i;
    assert OrderedButFor(keys[..], i, j) by {
      forall a, b | 0 <= a < b <= i && b != i ensures Leq(keys[a], keys[b]) {
        assert keys[..i][a] == keys[a] && keys[..i][b] == keys[b];
      }
    }
    while j > 0 && Less(keys[j], keys[j - 1])
      invariant 0 <= j <= i
      invariant OrderedButFor(keys[..], i, j)
      invariant multiset(keys[..]) == old(multiset(keys[..]))
    {
      SwapDown(keys[..], i, j);
      ghost var before := keys[..];
      keys[j], keys[j - 1] := keys[j - 1], keys[j];
      assert keys[..] == before[j := before[j - 1]][j - 1 := before[j]];
      j := j - 1;
    }
    StopsInOrder(keys[..], i, j);
    assert keys[..i + 1] == keys[..][..i + 1];
  }

  /** Two strictly increasing lists with the same elements are equal. */
  lemma {:induction false} StrictOrderIsUnique(a: seq<string>, b: seq<string>)
    requires StrictlyInOrder(a) && StrictlyInOrder(b) && Elements(a) == Elements(b)
    ensures a == b
  {
    assert a != [] ==> a[0] in Elements(a);
    assert b != [] ==> b[0] in Elements(b);
    if a != [] && b != [] {
      assert a[0] in Elements(b) && b[0] in Elements(a);
      var i :| 0 <= i < |b| && b[i] == a[0];
      var j :| 0 <= j < |a| && a[j] == b[0];
      LessTotal(a[0], b[0]);
      assert a[0] == b[0];
      forall x ensures x in Elements(a[1..]) <==> x in Elements(b[1..]) {
        RestHasOthers(a, x);
        RestHasOthers(b, x);
      }
      StrictOrderIsUnique(a[1..], b[1..]);
      assert a == [a[0]] + a[1..] && b == [b[0]] + b[1..];
    }
  }

  lemma RestHasOthers(a: seq<string>, x: string)
    requires a != [] && StrictlyInOrder(a)
    ensures x in Elements(a[1..]) <==> x in Elements(a) && x != a[0]
  {
    if x in Elements(a[1..]) {
      var i :| 0 <= i < |a[1..]| && a[1..][i] == x;
      assert a[i + 1] == x;
      LessTotal(a[0], x);
    }
    if x in Elements(a) && x != a[0] {
      var i :| 0 <= i < |a| && a[i] == x;
      assert a[1..][i - 1] == x;
    }
  }
}
