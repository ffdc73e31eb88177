/** The label picker of `src/components/LabelPicker.tsx`: a click toggles a
    label's id in the selection, and an unselected label's text colour is
    black or white depending on how bright its background colour is. */
module LabelPicker {
  import opened Options
  import opened Seqs
  import Text
  import LabelsRoute

  // ---------------------------------------------------------------------
  // Toggling a label

  /** Ids other than `id`. */
  function Other(id: string): string -> bool {
    x => x != id
  }

  /** The `onClick` handler: a selected label is removed, every copy of
      it; any other label is appended. */
  function Toggle(selected: seq<string>, id: string): (r: seq<string>)
    ensures id in r <==> id !in selected
    ensures forall x :: x != id ==> (x in r <==> x in selected)
  {
    if id in selected then Filter(selected, Other(id)) else selected + [id]
  }

  /** Toggling keeps the other ids, in their order. */
  lemma ToggleKeepsOthers(selected: seq<string>, id: string)
    ensures Filter(Toggle(selected, id), Other(id)) == Filter(selected, Other(id))
  {
    if id in selected {
      FilterAll(Filter(selected, Other(id)), Other(id));
    } else {
      FilterSnoc(selected, id, Other(id));
    }
  }

  /** Selecting a label and unselecting it again gives back the selection
      there was before. */
  lemma ToggleTwice(selected: seq<string>, id: string)
    requires id !in selected
    ensures Toggle(Toggle(selected, id), id) == selected
  {
    FilterSnoc(selected, id, Other(id));
    FilterAll(selected, Other(id));
  }

  /** A toggle that adds appends exactly one id, at the end. */
  lemma ToggleAppends(selected: seq<string>, id: string)
    requires id !in selected
    ensures |Toggle(selected, id)| == |selected| + 1
    ensures Toggle(selected, id)[..|selected|] == selected
    ensures Toggle(selected, id)[|selected|] == id
  {
  }

  // ---------------------------------------------------------------------
  // `parseInt(s, 16)`

  /** Reads the run of hexadecimal digits at the front of `s` on top of
      `count` digits worth `value` read before it: the number of digits in
      the whole run and its value. */
  function ReadHex(s: string, count: nat, value: nat): (nat, nat) {
    if s != [] && Text.IsHexDigit(s[0]) then ReadHex(s[1..], count + 1, 16 * value + Text.HexDigitValue(s[0]))
    else (count, value)
  }

  /** `parseInt(s, 16)`, with `None` for NaN: leading white space is
      skipped, then one sign, then a `0x` or `0X` prefix, and the longest
      run of hexadecimal digits that follows is read; without any digit
      the answer is NaN. */
  function ParseIntHex(s: string): Option<int> {
    var t := Text.TrimStart(s);
    var run := ReadHex(Unprefixed(Unsigned(t)), 0, 0);
    if run.0 == 0 then None else Some(Sign(t) * run.1)
  }

  function Sign(t: string): int {
    if t != [] && t[0] == '-' then -1 else 1
  }

  function Unsigned(t: string): string {
    if t != [] && (t[0] == '-' || t[0] == '+') then t[1..] else t
  }

  function Unprefixed(t: string): string {
    if |t| >= 2 && t[0] == '0' && (t[1] == 'x' || t[1] == 'X') then t[2..] else t
  }

  /** Two hexadecimal digits parse to their value, a byte. */
  lemma ParseTwoDigits(a: char, b: char)
    requires Text.IsHexDigit(a) && Text.IsHexDigit(b)
    ensures ParseIntHex([a, b]) == Some(16 * Text.HexDigitValue(a) + Text.HexDigitValue(b))
    ensures 0 <= 16 * Text.HexDigitValue(a) + Text.HexDigitValue(b) <= 255
  {
    var s := [a, b];
    assert !Text.IsWhitespace(a);
    assert Text.TrimStart(s) == s;
    assert Unsigned(s) == s && Unprefixed(s) == s;
    assert s[1..] == [b] && [b][1..] == [];
    assert ReadHex([b], 1, Text.HexDigitValue(a)) == ReadHex([], 2, 16 * Text.HexDigitValue(a) + Text.HexDigitValue(b));
    assert ReadHex(s, 0, 0) == ReadHex([b], 1, Text.HexDigitValue(a));
  }

  /** Inputs `parseInt` reads as NaN. */
  lemma ParseIntHexNaN()
    ensures ParseIntHex("") == None && ParseIntHex("0x") == None && ParseIntHex("zz") == None
  {
    assert Text.TrimStart("") == "";
    assert Text.TrimStart("0x") == "0x";
    assert Unsigned("0x") == "0x" && Unprefixed("0x") == "" && ReadHex("", 0, 0) == (0, 0);
    assert Text.TrimStart("zz") == "zz";
    assert Unsigned("zz") == "zz" && Unprefixed("zz") == "zz" && ReadHex("zz", 0, 0) == (0, 0);
  }

  /** Without a hexadecimal digit where the digits should start (after
      the white space and any sign), the answer is NaN. */
  lemma ParseIntHexNoDigit(s: string)
    requires var t := Text.TrimStart(s);
      t == [] || (!Text.IsHexDigit(t[0]) && t[0] != '-' && t[0] != '+')
    ensures ParseIntHex(s) == None
  {
    var t := Text.TrimStart(s);
    assert Unsigned(t) == t && Unprefixed(t) == t;
  }

  /** Leading white space does not change the answer. */
  lemma ParseIntHexSkipsSpace(c: char, s: string)
    requires Text.IsWhitespace(c)
    ensures ParseIntHex([c] + s) == ParseIntHex(s)
  {
    assert ([c] + s)[1..] == s;
  }

  /** A minus sign in front of unsigned text negates its value and leaves
      NaN alone. */
  lemma ParseIntHexNegates(s: string)
    requires s == [] || (!Text.IsWhitespace(s[0]) && s[0] != '-' && s[0] != '+')
    ensures ParseIntHex("-" + s) == if ParseIntHex(s).None? then None else Some(-ParseIntHex(s).value)
  {
    var t := "-" + s;
    assert !Text.IsWhitespace('-');
    assert Text.TrimStart(t) == t;
    assert Unsigned(t) == s;
    assert Text.TrimStart(s) == s;
    assert Unsigned(s) == s;
  }

  /** A minus sign in front of the digits negates them. */
  lemma ParseIntHexNegative()
    ensures ParseIntHex("-f") == Some(-15)
  {
    assert Text.TrimStart("-f") == "-f";
    assert Sign("-f") == -1 && Unsigned("-f") == "f" && Unprefixed("f") == "f";
    assert "f"[1..] == [];
    assert ReadHex("f", 0, 0) == (1, 15);
  }

  /** Leading white space is skipped. */
  lemma ParseIntHexLeadingSpace()
    ensures ParseIntHex(" f") == Some(15)
  {
    assert " f"[1..] == "f";
    assert Text.TrimStart(" f") == "f";
    assert Sign("f") == 1 && Unsigned("f") == "f" && Unprefixed("f") == "f";
    assert "f"[1..] == [];
    assert ReadHex("f", 0, 0) == (1, 15);
  }

  // ---------------------------------------------------------------------
  // `getContrastingTextColor`

  /** `s.substring(from, to)` for `from <= to`: both ends are clamped to
      the length. */
  function Substring(s: string, from: nat, to: nat): (r: string)
    requires from <= to
    ensures |r| <= to - from
  {
    var a := if from < |s| then from else |s|;
    var b := if to < |s| then to else |s|;
    s[a..b]
  }

  /** The colour without its leading '#', if it has one. */
  function StripHash(hex: string): string {
    if hex != [] && hex[0] == '#' then hex[1..] else hex
  }

  /** `parseInt(color.substring(from, from + 2), 16)`. */
  function ChannelFrom(color: string, from: nat): Option<int> {
    ParseIntHex(Substring(color, from, from + 2))
  }

  /** The red, green and blue values read from a colour, NaN as `None`. */
  function Channels(hex: string): (Option<int>, Option<int>, Option<int>) {
    var color := StripHash(hex);
    (ChannelFrom(color, 0), ChannelFrom(color, 2), ChannelFrom(color, 4))
  }

  /** `(0.299 * r + 0.587 * g + 0.114 * b) / 255 > 0.5`, in exact
      arithmetic. A NaN channel makes the luminance NaN, and NaN is not
      greater than anything. */
  predicate Bright(channels: (Option<int>, Option<int>, Option<int>)) {
    && channels.0.Some? && channels.1.Some? && channels.2.Some?
    && 299 * channels.0.value + 587 * channels.1.value + 114 * channels.2.value > 127500
  }

  const Black := "#000000"
  const White := "#FFFFFF"

  /** `getContrastingTextColor`: black on bright colours, white otherwise. */
  function ContrastingTextColor(hex: string): (r: string)
    ensures r == Black || r == White
    ensures r == Black <==> Bright(Channels(hex))
  {
    if Bright(Channels(hex)) then Black else White
  }

  /** For a colour the labels route accepts, the three channels are the
      values of digit pairs 1-2, 3-4 and 5-6, each a byte. */
  lemma HexColorChannels(hex: string)
    requires LabelsRoute.IsHexColor(hex)
    ensures Channels(hex).0 == Some(16 * Text.HexDigitValue(hex[1]) + Text.HexDigitValue(hex[2]))
    ensures Channels(hex).1 == Some(16 * Text.HexDigitValue(hex[3]) + Text.HexDigitValue(hex[4]))
    ensures Channels(hex).2 == Some(16 * Text.HexDigitValue(hex[5]) + Text.HexDigitValue(hex[6]))
    ensures 0 <= Channels(hex).0.value <= 255
    ensures 0 <= Channels(hex).1.value <= 255
    ensures 0 <= Channels(hex).2.value <= 255
  {
    var color := StripHash(hex);
    ChannelAt(hex, 0);
    assert ChannelFrom(color, 0) == Some(16 * Text.HexDigitValue(hex[1]) + Text.HexDigitValue(hex[2]));
    assert Channels(hex).0 == ChannelFrom(color, 0);
    ChannelAt(hex, 2);
    assert ChannelFrom(color, 2) == Some(16 * Text.HexDigitValue(hex[3]) + Text.HexDigitValue(hex[4]));
    assert Channels(hex).1 == ChannelFrom(color, 2);
    ChannelAt(hex, 4);
    assert ChannelFrom(color, 4) == Some(16 * Text.HexDigitValue(hex[5]) + Text.HexDigitValue(hex[6]));
    assert Channels(hex).2 == ChannelFrom(color, 4);
  }

  /** The channel read from the digits at `i + 1` and `i + 2` of a
      colour the labels route accepts. */
  lemma ChannelAt(hex: string, i: nat)
    requires LabelsRoute.IsHexColor(hex) && i <= 4
    ensures ChannelFrom(StripHash(hex), i) == Some(16 * Text.HexDigitValue(hex[i + 1]) + Text.HexDigitValue(hex[i + 2]))
    ensures 0 <= 16 * Text.HexDigitValue(hex[i + 1]) + Text.HexDigitValue(hex[i + 2]) <= 255
  {
    var color := StripHash(hex);
    assert color == hex[1..];
    assert Substring(color, i, i + 2) == color[i..i + 2];
    assert color[i..i + 2] == [hex[i + 1], hex[i + 2]];
    ParseTwoDigits(hex[i + 1], hex[i + 2]);
  }

  /** For a colour the labels route accepts, the text is black exactly
      when the weighted sum of the three digit pairs is above half of the
      largest possible one. */
  lemma ContrastingForHexColor(hex: string)
    requires LabelsRoute.IsHexColor(hex)
    ensures var r := 16 * Text.HexDigitValue(hex[1]) + Text.HexDigitValue(hex[2]);
      var g := 16 * Text.HexDigitValue(hex[3]) + Text.HexDigitValue(hex[4]);
      var b := 16 * Text.HexDigitValue(hex[5]) + Text.HexDigitValue(hex[6]);
      ContrastingTextColor(hex) == Black <==> 299 * r + 587 * g + 114 * b > 127500
  {
    HexColorChannels(hex);
  }

  /** A colour the labels route rejects can still get black text, because
      the digits are read without the whole string being checked. */
  lemma ShortColourReadAnyway()
    ensures !LabelsRoute.IsHexColor("ffff00") && ContrastingTextColor("ffff00") == Black
  {
    var color := StripHash("ffff00");
    assert color == "ffff00";
    assert Substring(color, 0, 2) == ['f', 'f'];
    assert Substring(color, 2, 4) == ['f', 'f'];
    assert Substring(color, 4, 6) == ['0', '0'];
    ParseTwoDigits('f', 'f');
    ParseTwoDigits('0', '0');
  }

  /** The colour of one of the labels on offer gets white text, and another
      black. */
  lemma BlueGetsWhite()
    ensures ContrastingTextColor("#3b82f6") == White
  {
    var hex := "#3b82f6";
    assert LabelsRoute.IsHexColor(hex);
    HexColorChannels(hex);
    assert Channels(hex) == (Some(59), Some(130), Some(246));
  }

  lemma OrangeGetsBlack()
    ensures ContrastingTextColor("#f97316") == Black
  {
    var hex := "#f97316";
    assert LabelsRoute.IsHexColor(hex);
    HexColorChannels(hex);
    assert Text.HexDigitValue(hex[1]) == 15 && Text.HexDigitValue(hex[2]) == 9;
    assert Text.HexDigitValue(hex[3]) == 7 && Text.HexDigitValue(hex[4]) == 3;
    assert Text.HexDigitValue(hex[5]) == 1 && Text.HexDigitValue(hex[6]) == 6;
    assert Channels(hex) == (Some(249), Some(115), Some(22));
  }
}
