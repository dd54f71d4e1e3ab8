/**
 Message-of-the-day text (internal/mc/motd.go): runs of equally styled text
 cut out of a string with section-sign codes, or out of nested JSON chat
 components. The parser works in batches; its meaning is given here one
 character at a time.
 */
module Motd {
  import opened Prelude

  const SECTION := '\U{00A7}'

  /** The colour is a name, "#rrggbb" or "" for none. */
  datatype Style = Style(color: string, bold: bool, italic: bool, underline: bool, strike: bool)

  datatype Segment = Segment(text: string, style: Style)

  type Styled = seq<(char, Style)>

  const PLAIN := Style("", false, false, false, false)

  function LegacyColor(code: char): Option<string> {
    match code
    case '0' => Some("black")
    case '1' => Some("dark_blue")
    case '2' => Some("dark_green")
    case '3' => Some("dark_aqua")
    case '4' => Some("dark_red")
    case '5' => Some("dark_purple")
    case '6' => Some("gold")
    case '7' => Some("gray")
    case '8' => Some("dark_gray")
    case '9' => Some("blue")
    case 'a' => Some("green")
    case 'b' => Some("aqua")
    case 'c' => Some("red")
    case 'd' => Some("light_purple")
    case 'e' => Some("yellow")
    case 'f' => Some("white")
    case _ => None
  }

  function Lower(c: char): char {
    if 'A' <= c <= 'Z' then ((c as int) + 32) as char else c
  }

  /** What one code does to the style: a colour clears formatting, "r" restores the base, unknown codes do nothing. */
  function AfterCode(code: char, st: Style, base: Style): Style {
    var c := Lower(code);
    if LegacyColor(c).Some? then Style(LegacyColor(c).value, false, false, false, false)
    else match c
      case 'l' => st.(bold := true)
      case 'o' => st.(italic := true)
      case 'n' => st.(underline := true)
      case 'm' => st.(strike := true)
      case 'r' => base
      case _ => st
  }

  /** The characters of a coded string with the style each is shown in. */
  function PerRune(text: string, st: Style, base: Style): Styled
    decreases |text|
  {
    if text == "" then []
    else if text[0] != SECTION || |text| == 1 then [(text[0], st)] + PerRune(text[1..], st, base)
    else PerRune(text[2..], AfterCode(text[1], st, base), base)
  }

  function Spread(text: string, st: Style): Styled { seq(|text|, i requires 0 <= i < |text| => (text[i], st)) }

  /** What a list of segments shows, character by character. */
  function Expand(segments: seq<Segment>): Styled {
    if segments == [] then [] else Spread(segments[0].text, segments[0].style) + Expand(segments[1..])
  }

  predicate NoGhosts(segments: seq<Segment>) { forall i :: 0 <= i < |segments| ==> segments[i].text != "" }

  function Codes(text: string): nat
    decreases |text|
  {
    if text == "" then 0
    else if text[0] != SECTION || |text| == 1 then Codes(text[1..])
    else 1 + Codes(text[2..])
  }

  lemma {:induction false} ExpandAppend(a: seq<Segment>, b: seq<Segment>)
    ensures Expand(a + b) == Expand(a) + Expand(b)
  {
    if a == [] {
      assert a + b == b;
    } else {
      ExpandAppend(a[1..], b);
      assert (a + b)[0] == a[0] && (a + b)[1..] == a[1..] + b;
      Reassociate(Spread(a[0].text, a[0].style), Expand(a[1..]), Expand(b));
    }
  }

  lemma ExpandOne(segments: seq<Segment>, s: Segment)
    ensures Expand(segments + [s]) == Expand(segments) + Spread(s.text, s.style)
  {
    ExpandAppend(segments, [s]);
    assert [s][1..] == [] && Expand([]) == [];
    assert Expand([s]) == Spread(s.text, s.style) + [];
  }

  /** What is collected but not yet flushed. */
  function Pending(out: seq<Segment>, cur: string, st: Style): Styled { Expand(out) + Spread(cur, st) }

  lemma FlushKeeps(out: seq<Segment>, cur: string, st: Style)
    ensures Pending(out, cur, st) == Expand(Flushed(out, cur, st))
  {
    if cur != "" {
      ExpandOne(out, Segment(cur, st));
    }
  }

  /** The closure flush. */
  function Flushed(out: seq<Segment>, cur: string, st: Style): seq<Segment> {
    if cur != "" then out + [Segment(cur, st)] else out
  }

  lemma PlainRune(out: seq<Segment>, cur: string, text: string, st: Style, base: Style)
    requires text != "" && (text[0] != SECTION || |text| == 1)
    ensures Pending(out, cur, st) + PerRune(text, st, base)
         == Pending(out, cur + [text[0]], st) + PerRune(text[1..], st, base)
  {
  }

  lemma CodeRune(out: seq<Segment>, cur: string, text: string, st: Style, base: Style)
    requires |text| > 1 && text[0] == SECTION
    ensures Pending(out, cur, st) + PerRune(text, st, base)
         == Pending(Flushed(out, cur, st), "", AfterCode(text[1], st, base))
            + PerRune(text[2..], AfterCode(text[1], st, base), base)
  {
    var after := AfterCode(text[1], st, base);
    FlushKeeps(out, cur, st);
    NothingPending(Flushed(out, cur, st), after);
    assert PerRune(text, st, base) == PerRune(text[2..], after, base);
  }

  lemma NothingPending(out: seq<Segment>, st: Style)
    ensures Pending(out, "", st) == Expand(out)
  {
  }

  /**
   The segments added show exactly what the per-character reading shows; none
   is empty, and there is at most one more than there are codes.
   */
  method AppendLegacy(text: string, base: Style, before: seq<Segment>) returns (out: seq<Segment>)
    ensures before <= out && NoGhosts(out[|before|..])
    ensures Expand(out) == Expand(before) + PerRune(text, base, base)
    ensures |out| <= |before| + Codes(text) + 1
  {
    var st, cur, i := base, "", 0;
    out := before;
    NothingPending(out, st);
    while i < |text|
      invariant 0 <= i <= |text|
      invariant before <= out && NoGhosts(out[|before|..])
      invariant Pending(out, cur, st) + PerRune(text[i..], st, base) == Expand(before) + PerRune(text, base, base)
      invariant |out| + Codes(text[i..]) <= |before| + Codes(text)
    {
      var rest := text[i..];
      assert rest[0] == text[i];
      if text[i] != SECTION || i + 1 >= |text| {
        PlainRune(out, cur, rest, st, base);
        assert rest[1..] == text[i + 1..];
        cur := cur + [text[i]];
        i := i + 1;
        continue;
      }
      CodeRune(out, cur, rest, st, base);
      assert rest[2..] == text[i + 2..] && rest[1] == text[i + 1];
      var code := Lower(text[i + 1]);
      i := i + 2;
      if cur != "" {
        out := out + [Segment(cur, st)];
        cur := "";
      }
      var color := LegacyColor(code);
      if color.Some? {
        st := Style(color.value, false, false, false, false);
        continue;
      }
      match code {
        case 'l' => st := st.(bold := true);
        case 'o' => st := st.(italic := true);
        case 'n' => st := st.(underline := true);
        case 'm' => st := st.(strike := true);
        case 'r' => st := base;
        case _ =>
      }
    }
    FlushKeeps(out, cur, st);
    assert PerRune(text[i..], st, base) == [];
    if cur != "" {
      out := out + [Segment(cur, st)];
    }
  }

  method ParseLegacyMotd(s: string) returns (out: seq<Segment>)
    ensures Expand(out) == PerRune(s, PLAIN, PLAIN) && NoGhosts(out)
  {
    out := AppendLegacy(s, PLAIN, []);
  }

  predicate IsFormat(c: char) { c in {'l', 'o', 'n', 'm'} }

  /**
   What the codes mean for all that follows, whatever came before: upper case
   is lower case; a colour clears everything else and a reset goes back to the
   base; other codes vanish; and a section sign at the very end is text.
   */
  lemma CodeLaws(code: char, rest: string, st: Style, before: Style, base: Style)
    ensures PerRune([SECTION, code] + rest, st, base) == PerRune([SECTION, Lower(code)] + rest, st, base)
    ensures LegacyColor(Lower(code)).Some? || Lower(code) == 'r' ==>
              PerRune([SECTION, code] + rest, st, base) == PerRune([SECTION, code] + rest, before, base)
    ensures Lower(code) == 'r' ==> PerRune([SECTION, code] + rest, st, base) == PerRune(rest, base, base)
    ensures LegacyColor(Lower(code)).None? && Lower(code) != 'r' && !IsFormat(Lower(code)) ==>
              PerRune([SECTION, code] + rest, st, base) == PerRune(rest, st, base)
    ensures PerRune([SECTION], st, base) == [(SECTION, st)]
  {
    assert Lower(Lower(code)) == Lower(code);
    CodeApplies(code, rest, st, base);
    CodeApplies(Lower(code), rest, st, base);
    CodeApplies(code, rest, before, base);
  }

  /** Formats add up in any order. */
  lemma FormatsAddUp(code: char, other: char, rest: string, st: Style, base: Style)
    requires IsFormat(Lower(code)) && IsFormat(Lower(other))
    ensures PerRune([SECTION, code] + ([SECTION, other] + rest), st, base)
         == PerRune([SECTION, other] + ([SECTION, code] + rest), st, base)
  {
    TwoCodesApply(code, other, rest, st, base);
    TwoCodesApply(other, code, rest, st, base);
    FormatsCommute(code, other, st, base);
  }

  lemma FormatsCommute(code: char, other: char, st: Style, base: Style)
    requires IsFormat(Lower(code)) && IsFormat(Lower(other))
    ensures AfterCode(other, AfterCode(code, st, base), base) == AfterCode(code, AfterCode(other, st, base), base)
  {
    FormatSets(code, st, base);
    FormatSets(other, st, base);
    FormatSets(code, AfterCode(other, st, base), base);
    FormatSets(other, AfterCode(code, st, base), base);
  }

  lemma FormatSets(code: char, st: Style, base: Style)
    requires IsFormat(Lower(code))
    ensures var c := Lower(code);
            AfterCode(code, st, base)
            == Style(st.color, st.bold || c == 'l', st.italic || c == 'o',
                     st.underline || c == 'n', st.strike || c == 'm')
  {
  }

  lemma TwoCodesApply(code: char, other: char, rest: string, st: Style, base: Style)
    ensures PerRune([SECTION, code] + ([SECTION, other] + rest), st, base)
         == PerRune(rest, AfterCode(other, AfterCode(code, st, base), base), base)
  {
    CodeApplies(code, [SECTION, other] + rest, st, base);
    CodeApplies(other, rest, AfterCode(code, st, base), base);
  }

  // --- the codes can say any style -----------------------------------------------------

  const COLOR_CODES := "0123456789abcdef"

  predicate IsLegacyColor(color: string) {
    exists i :: 0 <= i < |COLOR_CODES| && LegacyColor(COLOR_CODES[i]) == Some(color)
  }

  /** The code of a colour; the first that fits. */
  function CodeFrom(color: string, i: nat): (c: char)
    requires i < |COLOR_CODES|
    requires exists k :: i <= k < |COLOR_CODES| && LegacyColor(COLOR_CODES[k]) == Some(color)
    ensures LegacyColor(c) == Some(color) && Lower(c) == c
    decreases |COLOR_CODES| - i
  {
    if LegacyColor(COLOR_CODES[i]) == Some(color) then COLOR_CODES[i] else CodeFrom(color, i + 1)
  }

  predicate Sayable(st: Style) { st.color == "" || IsLegacyColor(st.color) }

  function Flag(on: bool, code: char): string { if on then [SECTION, code] else "" }

  /** `rest` with the codes of a style before it: a reset, the colour, the formats. */
  function Say(st: Style, rest: string): string
    requires Sayable(st)
  {
    var flags := Flag(st.bold, 'l')
               + (Flag(st.italic, 'o') + (Flag(st.underline, 'n') + (Flag(st.strike, 'm') + rest)));
    [SECTION, 'r'] + (if st.color == "" then flags else [SECTION, CodeFrom(st.color, 0)] + flags)
  }

  predicate SayableText(s: Styled) { forall i :: 0 <= i < |s| ==> s[i].0 != SECTION && Sayable(s[i].1) }

  /** Styled text as a coded string: before each character, a reset and the codes of its style. */
  function Coded(s: Styled): string
    requires SayableText(s)
  {
    if s == [] then "" else Say(s[0].1, [s[0].0] + Coded(s[1..]))
  }

  lemma CodeApplies(code: char, rest: string, st: Style, base: Style)
    ensures PerRune([SECTION, code] + rest, st, base) == PerRune(rest, AfterCode(code, st, base), base)
  {
  }

  lemma FlagApplies(on: bool, code: char, rest: string, st: Style)
    ensures PerRune(Flag(on, code) + rest, st, PLAIN)
         == PerRune(rest, if on then AfterCode(code, st, PLAIN) else st, PLAIN)
  {
    if on {
      CodeApplies(code, rest, st, PLAIN);
    } else {
      assert Flag(on, code) + rest == rest;
    }
  }

  lemma FlagsApply(st: Style, rest: string, from: Style)
    requires from == Style(st.color, false, false, false, false)
    ensures PerRune(Flag(st.bold, 'l')
                    + (Flag(st.italic, 'o') + (Flag(st.underline, 'n') + (Flag(st.strike, 'm') + rest))),
                    from, PLAIN)
         == PerRune(rest, st, PLAIN)
  {
    var strike := Flag(st.strike, 'm') + rest;
    var underline := Flag(st.underline, 'n') + strike;
    var italic := Flag(st.italic, 'o') + underline;
    FlagApplies(st.bold, 'l', italic, from);
    FlagApplies(st.italic, 'o', underline, from.(bold := st.bold));
    FlagApplies(st.underline, 'n', strike, from.(bold := st.bold, italic := st.italic));
    FlagApplies(st.strike, 'm', rest, from.(bold := st.bold, italic := st.italic, underline := st.underline));
  }

  lemma CodesSetTheStyle(st: Style, rest: string, from: Style)
    requires Sayable(st)
    ensures PerRune(Say(st, rest), from, PLAIN) == PerRune(rest, st, PLAIN)
  {
    var flags := Flag(st.bold, 'l')
               + (Flag(st.italic, 'o') + (Flag(st.underline, 'n') + (Flag(st.strike, 'm') + rest)));
    FlagsApply(st, rest, Style(st.color, false, false, false, false));
    if st.color == "" {
      CodeApplies('r', flags, from, PLAIN);
    } else {
      var color := CodeFrom(st.color, 0);
      CodeApplies('r', [SECTION, color] + flags, from, PLAIN);
      CodeApplies(color, flags, PLAIN, PLAIN);
    }
  }

  lemma RuneIsShown(c: char, rest: string, st: Style, base: Style)
    requires c != SECTION
    ensures PerRune([c] + rest, st, base) == [(c, st)] + PerRune(rest, st, base)
  {
  }

  /** Every text without section signs, in any of the styles codes can name, is what the parser shows for its codes. */
  lemma {:induction false} CodedReadsBack(s: Styled, from: Style)
    requires SayableText(s)
    ensures PerRune(Coded(s), from, PLAIN) == s
  {
    if s != [] {
      CodedReadsBack(s[1..], s[0].1);
      CodesSetTheStyle(s[0].1, [s[0].0] + Coded(s[1..]), from);
      RuneIsShown(s[0].0, Coded(s[1..]), s[0].1, PLAIN);
      assert [s[0]] + s[1..] == s;
    }
  }

  // --- chat components ---------------------------------------------------------------------

  /** Decoded JSON; numbers carry no text. */
  datatype Json =
    Null | Number | Bool(b: bool) | Str(s: string) | Arr(items: seq<Json>) | Obj(fields: map<string, Json>)

  /** A flag arrives as a boolean or as "true" or "false"; anything else leaves the inherited value. */
  function BoolField(fields: map<string, Json>, key: string, inherited: bool): bool {
    if key !in fields then inherited
    else match fields[key]
      case Bool(b) => b
      case Str(s) => if s == "true" then true else if s == "false" then false else inherited
      case _ => inherited
  }

  /** The style a component gives its own text and its children. */
  function OwnStyle(fields: map<string, Json>, st: Style): Style {
    Style(
      if "color" in fields && fields["color"].Str? then fields["color"].s else st.color,
      BoolField(fields, "bold", st.bold),
      BoolField(fields, "italic", st.italic),
      BoolField(fields, "underlined", st.underline),
      BoolField(fields, "strikethrough", st.strike))
  }

  /** The characters of a component, its own text before its children, each in the style it inherits. */
  function Shown(v: Json, st: Style): Styled
    decreases v
  {
    match v
    case Str(s) => PerRune(s, st, st)
    case Arr(items) => ShownAll(items, st)
    case Obj(fields) =>
      var own := OwnStyle(fields, st);
      OwnText(fields, own) + (if "extra" in fields then Shown(fields["extra"], own) else [])
    case _ => []
  }

  function OwnText(fields: map<string, Json>, own: Style): Styled {
    if "text" in fields && fields["text"].Str? then PerRune(fields["text"].s, own, own) else []
  }

  function ShownAll(items: seq<Json>, st: Style): Styled
    decreases items
  {
    if items == [] then [] else Shown(items[0], st) + ShownAll(items[1..], st)
  }

  method FlattenComponent(v: Json, st: Style, before: seq<Segment>) returns (out: seq<Segment>)
    requires NoGhosts(before)
    ensures NoGhosts(out) && Expand(out) == Expand(before) + Shown(v, st)
    decreases v, 0
  {
    out := before;
    match v {
      case Str(s) =>
        out := AppendLegacy(s, st, out);
        GhostFree(before, out);
      case Arr(items) =>
        out := FlattenItems(items, st, out);
      case Obj(fields) =>
        var own := OwnStyle(fields, st);
        if "text" in fields && fields["text"].Str? {
          out := AppendLegacy(fields["text"].s, own, out);
          GhostFree(before, out);
        }
        assert Expand(out) == Expand(before) + OwnText(fields, own);
        if "extra" in fields {
          Reassociate(Expand(before), OwnText(fields, own), Shown(fields["extra"], own));
          out := FlattenComponent(fields["extra"], own, out);
        }
      case _ =>
    }
  }

  lemma GhostFree(before: seq<Segment>, out: seq<Segment>)
    requires NoGhosts(before) && before <= out && NoGhosts(out[|before|..])
    ensures NoGhosts(out)
  {
  }

  /** The loop over an array of components. */
  method FlattenItems(items: seq<Json>, st: Style, before: seq<Segment>) returns (out: seq<Segment>)
    requires NoGhosts(before)
    ensures NoGhosts(out) && Expand(out) == Expand(before) + ShownAll(items, st)
    decreases items, 1
  {
    out := before;
    for i := 0 to |items|
      invariant NoGhosts(out)
      invariant Expand(out) + ShownAll(items[i..], st) == Expand(before) + ShownAll(items, st)
    {
      assert items[i..][0] == items[i] && items[i..][1..] == items[i + 1..];
      ghost var done := Expand(out);
      Reassociate(done, Shown(items[i], st), ShownAll(items[i + 1..], st));
      out := FlattenComponent(items[i], st, out);
    }
  }

  /** The filter against empty segments finds none: what it keeps is all there was. */
  method MotdFromDescription(v: Json) returns (kept: seq<Segment>)
    ensures NoGhosts(kept) && Expand(kept) == Shown(v, PLAIN)
  {
    var out := FlattenComponent(v, PLAIN, []);
    kept := [];
    for i := 0 to |out|
      invariant kept == out[..i]
    {
      assert out[..i] + [out[i]] == out[..i + 1];
      if out[i].text != "" {
        kept := kept + [out[i]];
      } else {
        assert false;
      }
    }
    assert out[..|out|] == out;
  }

  /** A component in brackets, or in a component that only has children, looks the same. */
  lemma WrappingShowsTheSame(v: Json, st: Style)
    ensures Shown(Arr([v]), st) == Shown(v, st)
    ensures Shown(Obj(map["extra" := v]), st) == Shown(v, st)
  {
    SingleShown(v, st);
    var fields := map["extra" := v];
    assert OwnStyle(fields, st) == st;
    assert Shown(Obj(fields), st) == [] + Shown(v, st);
  }

  lemma {:induction false} ShownAllAppend(a: seq<Json>, b: seq<Json>, st: Style)
    ensures ShownAll(a + b, st) == ShownAll(a, st) + ShownAll(b, st)
  {
    if a == [] {
      assert a + b == b;
    } else {
      ShownAllAppend(a[1..], b, st);
      assert (a + b)[1..] == a[1..] + b && (a + b)[0] == a[0];
    }
  }

  /** Arrays within arrays may be opened up. */
  lemma NestedArraysShowFlat(a: seq<Json>, inner: seq<Json>, b: seq<Json>, st: Style)
    ensures Shown(Arr(a + [Arr(inner)] + b), st) == Shown(Arr(a + inner + b), st)
  {
    var nested, flat := a + [Arr(inner)] + b, a + inner + b;
    ShownAllAppend(a + [Arr(inner)], b, st);
    ShownAllAppend(a, [Arr(inner)], st);
    ShownAllAppend(a + inner, b, st);
    ShownAllAppend(a, inner, st);
    SingleShown(Arr(inner), st);
    ArrayShows(inner, st);
    ArrayShows(nested, st);
    ArrayShows(flat, st);
  }

  lemma SingleShown(v: Json, st: Style)
    ensures ShownAll([v], st) == Shown(v, st)
  {
  }

  lemma ArrayShows(items: seq<Json>, st: Style)
    ensures Shown(Arr(items), st) == ShownAll(items, st)
  {
  }

  /** What a component's text shows is what the text shows. */
  lemma TextIsShown(s: string, st: Style)
    ensures Shown(Obj(map["text" := Str(s)]), st) == Shown(Str(s), st)
    ensures Shown(Str(s), st) == PerRune(s, st, st)
  {
    var fields := map["text" := Str(s)];
    KeysDiffer();
    assert OwnStyle(fields, st) == st;
  }

  lemma KeysDiffer()
    ensures "text" != "extra" && "text" != "color" && "text" != "bold"
    ensures "text" != "italic" && "text" != "underlined" && "text" != "strikethrough"
    ensures "extra" != "color" && "extra" != "bold" && "extra" != "italic"
    ensures "extra" != "underlined" && "extra" != "strikethrough"
    ensures "color" != "bold" && "color" != "italic" && "color" != "underlined" && "color" != "strikethrough"
    ensures "bold" != "italic" && "bold" != "underlined" && "bold" != "strikethrough"
    ensures "italic" != "underlined" && "italic" != "strikethrough"
    ensures "underlined" != "strikethrough"
  {
    assert "text"[0] == 't' && "extra"[0] == 'e' && "color"[0] == 'c';
    assert "bold"[0] == 'b' && "italic"[0] == 'i' && "underlined"[0] == 'u' && "strikethrough"[0] == 's';
  }

  /** A component shows its own text, and then its children, as each would show alone in its style. */
  lemma TextComesBeforeExtra(fields: map<string, Json>, st: Style)
    ensures Shown(Obj(fields), st) == Shown(Obj(fields - {"extra"}), st) + Shown(Obj(fields - {"text"}), st)
  {
    KeysDiffer();
    var alone, children := fields - {"extra"}, fields - {"text"};
    assert OwnStyle(alone, st) == OwnStyle(fields, st) && OwnStyle(children, st) == OwnStyle(fields, st);
    assert Shown(Obj(alone), st) == OwnText(fields, OwnStyle(fields, st)) + [];
    assert Shown(Obj(children), st)
        == [] + (if "extra" in fields then Shown(fields["extra"], OwnStyle(fields, st)) else []);
  }

  /** Children are shown in the style that the component's own text has. */
  lemma ExtraTakesTheStyle(fields: map<string, Json>, v: Json, s: string, st: Style)
    requires "text" !in fields && "extra" !in fields && SECTION !in s
    ensures Shown(Obj(fields["extra" := Str(s)]), st) == Shown(Obj(fields["text" := Str(s)]), st)
  {
    KeysDiffer();
    assert OwnStyle(fields["extra" := Str(s)], st) == OwnStyle(fields["text" := Str(s)], st);
  }

  /** The colour reaches the text, and nothing else of the style changes. */
  lemma ColorReachesTheText(s: string, color: string, st: Style)
    requires SECTION !in s
    ensures Shown(Obj(map["text" := Str(s), "color" := Str(color)]), st) == Spread(s, st.(color := color))
  {
    KeysDiffer();
    ShownInStyle(map["text" := Str(s), "color" := Str(color)], s, st, st.(color := color));
  }

  /** The style with one flag set by the name of its field. */
  function WithFlag(st: Style, key: string, b: bool): Style {
    if key == "bold" then st.(bold := b)
    else if key == "italic" then st.(italic := b)
    else if key == "underlined" then st.(underline := b)
    else if key == "strikethrough" then st.(strike := b)
    else st
  }

  /** So does each flag. */
  lemma FlagsReachTheText(s: string, key: string, b: bool, st: Style)
    requires SECTION !in s && key in {"bold", "italic", "underlined", "strikethrough"}
    ensures Shown(Obj(map["text" := Str(s), key := Bool(b)]), st) == Spread(s, WithFlag(st, key, b))
  {
    KeysDiffer();
    var fields := map["text" := Str(s), key := Bool(b)];
    assert BoolField(fields, key, false) == b;
    ShownInStyle(fields, s, st, WithFlag(st, key, b));
  }

  lemma ShownInStyle(fields: map<string, Json>, s: string, st: Style, own: Style)
    requires "text" in fields && fields["text"] == Str(s) && "extra" !in fields && SECTION !in s
    requires OwnStyle(fields, st) == own
    ensures Shown(Obj(fields), st) == Spread(s, own)
  {
    PlainTextKeepsStyle(s, own, own);
  }

  predicate IsKnownField(key: string) {
    key in {"text", "extra", "color", "bold", "italic", "underlined", "strikethrough"}
  }

  /** Other fields are as if they were not there. */
  lemma OtherFieldsAreIgnored(fields: map<string, Json>, key: string, v: Json, st: Style)
    requires !IsKnownField(key)
    ensures Shown(Obj(fields[key := v]), st) == Shown(Obj(fields), st)
  {
    assert OwnStyle(fields[key := v], st) == OwnStyle(fields, st);
  }

  /** So is a text that is no string. */
  lemma OnlyStringsAreText(fields: map<string, Json>, v: Json, st: Style)
    requires !v.Str?
    ensures Shown(Obj(fields["text" := v]), st) == Shown(Obj(fields - {"text"}), st)
  {
    KeysDiffer();
    assert OwnStyle(fields["text" := v], st) == OwnStyle(fields - {"text"}, st);
  }

  /** And a colour that is none. */
  lemma OnlyStringsAreColors(fields: map<string, Json>, v: Json, st: Style)
    requires !v.Str?
    ensures Shown(Obj(fields["color" := v]), st) == Shown(Obj(fields - {"color"}), st)
  {
    KeysDiffer();
    assert OwnStyle(fields["color" := v], st) == OwnStyle(fields - {"color"}, st);
  }

  /** Values that are neither text, list nor component show nothing. */
  lemma OtherValuesShowNothing(b: bool, st: Style)
    ensures Shown(Null, st) == [] && Shown(Number, st) == [] && Shown(Bool(b), st) == []
  {
  }

  const COLOR_NAMES := [
    "black", "dark_blue", "dark_green", "dark_aqua", "dark_red", "dark_purple", "gold", "gray",
    "dark_gray", "blue", "green", "aqua", "red", "light_purple", "yellow", "white"]

  /** The sixteen colour codes name the sixteen colours in order, and nothing else is a colour code. */
  lemma ColorCodesNameTheColors(code: char)
    ensures |COLOR_CODES| == |COLOR_NAMES|
    ensures forall i :: 0 <= i < |COLOR_CODES| ==> LegacyColor(COLOR_CODES[i]) == Some(COLOR_NAMES[i])
    ensures code !in COLOR_CODES ==> LegacyColor(code).None?
  {
    forall i | 0 <= i < 16 ensures LegacyColor(COLOR_CODES[i]) == Some(COLOR_NAMES[i]) {
    }
    assert forall i :: 0 <= i < 16 ==> COLOR_CODES[i] in COLOR_CODES;
  }

  predicate IsFlag(fields: map<string, Json>, key: string) {
    key in fields && (fields[key].Bool? || fields[key] == Str("true") || fields[key] == Str("false"))
  }

  /** A component that says everything about its style looks the same under any parent. */
  lemma FullyStyledIgnoresParent(fields: map<string, Json>, a: Style, b: Style)
    requires "color" in fields && fields["color"].Str?
    requires IsFlag(fields, "bold") && IsFlag(fields, "italic")
    requires IsFlag(fields, "underlined") && IsFlag(fields, "strikethrough")
    ensures Shown(Obj(fields), a) == Shown(Obj(fields), b)
  {
    assert OwnStyle(fields, a) == OwnStyle(fields, b);
  }

  /** A flag may be written as text. */
  lemma SpelledFlags(fields: map<string, Json>, key: string, b: bool, st: Style)
    requires key in {"bold", "italic", "underlined", "strikethrough"}
    ensures Shown(Obj(fields[key := Str(if b then "true" else "false")]), st) == Shown(Obj(fields[key := Bool(b)]), st)
  {
    var text, flag := fields[key := Str(if b then "true" else "false")], fields[key := Bool(b)];
    assert OwnStyle(text, st) == OwnStyle(flag, st);
  }

  /** Whether nothing in a component says anything about style: neither fields nor codes. */
  predicate Unstyled(v: Json)
    decreases v
  {
    match v
    case Str(s) => SECTION !in s
    case Arr(items) => forall i :: 0 <= i < |items| ==> Unstyled(items[i])
    case Obj(fields) =>
      && (forall k :: k in fields ==> k == "text" || k == "extra")
      && ("text" in fields && fields["text"].Str? ==> SECTION !in fields["text"].s)
      && ("extra" in fields ==> Unstyled(fields["extra"]))
    case _ => true
  }

  predicate AllIn(s: Styled, st: Style) { forall i :: 0 <= i < |s| ==> s[i].1 == st }

  lemma {:induction false} PlainTextKeepsStyle(text: string, st: Style, base: Style)
    requires SECTION !in text
    ensures PerRune(text, st, base) == Spread(text, st)
  {
    if text != "" {
      assert text[0] in text && forall c :: c in text[1..] ==> c in text;
      PlainTextKeepsStyle(text[1..], st, base);
    }
  }

  /** Style comes from above: what a component does not say is inherited by everything below it. */
  lemma {:induction false} UnstyledInherits(v: Json, st: Style)
    requires Unstyled(v)
    ensures AllIn(Shown(v, st), st)
    decreases v, 0
  {
    match v
    case Str(s) => PlainTextKeepsStyle(s, st, st);
    case Arr(items) => UnstyledItemsInherit(items, st);
    case Obj(fields) =>
      assert OwnStyle(fields, st) == st;
      if "text" in fields && fields["text"].Str? {
        PlainTextKeepsStyle(fields["text"].s, st, st);
      }
      if "extra" in fields {
        UnstyledInherits(fields["extra"], st);
      }
    case _ =>
  }

  lemma {:induction false} UnstyledItemsInherit(items: seq<Json>, st: Style)
    requires forall i :: 0 <= i < |items| ==> Unstyled(items[i])
    ensures AllIn(ShownAll(items, st), st)
    decreases items, 1
  {
    if items != [] {
      UnstyledInherits(items[0], st);
      UnstyledItemsInherit(items[1..], st);
    }
  }
}
