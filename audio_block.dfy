/**
 * The audio block of `src/components/author/editor/extensions/audio-block.tsx`: its attribute
 * schema, its HTML mapping, its insert command, and the duration and play state of its view.
 */
module AudioBlock {
  import opened Wrappers
  import opened Text
  import opened Schema
  import opened EditorTypes

  /** The node type name (`name: 'audioBlock'`). */
  const NodeName: string := "audioBlock"

  /** The `data-type` marker of a rendered block. */
  const BlockMarker: string := "audio-block"

  const DefaultTitle: string := "Audio sans titre"

  /** The attributes an audio block node holds. */
  datatype AudioNodeAttrs = AudioNodeAttrs(src: Option<string>, title: string, duration: int, mediaId: Option<string>)

  /** `addAttributes`: the default of each attribute. */
  function Defaults(): (d: AudioNodeAttrs)
    ensures d.src.None? && d.title == "Audio sans titre" && d.duration == 0 && d.mediaId.None?
  {
    AudioNodeAttrs(None, DefaultTitle, 0, None)
  }

  /** The node's attributes when created from given ones: what is given is kept, the rest takes its default. */
  function NodeAttrs(given: AudioBlockAttrs): (n: AudioNodeAttrs)
    ensures n.src == Some(given.src)
    ensures n.title == given.title.GetOr(Defaults().title)
    ensures n.duration == given.duration.GetOr(Defaults().duration)
    ensures n.mediaId == given.mediaId
  {
    AudioNodeAttrs(Some(given.src), given.title.GetOr(DefaultTitle), given.duration.GetOr(0), given.mediaId)
  }

  /** `src.renderHTML`: written as `data-src`. */
  function RenderSrc(n: AudioNodeAttrs): HtmlAttributes {
    map["data-src" := n.src]
  }

  /** `src.parseHTML`: read from `data-src`. */
  function ParseSrc(el: Element): Option<string> {
    GetAttribute(el, "data-src")
  }

  /** `parseHTML`: the rule `div[data-type="audio-block"]`. */
  const Rule: ParseRule := ParseRule("div", "data-type", BlockMarker)

  /** `renderHTML`: a `div` carrying the rendered attributes and the `data-type` marker. */
  function RenderHTML(htmlAttributes: HtmlAttributes): DomSpec {
    DomSpec("div", MergeAttributes(htmlAttributes, map["data-type" := Some(BlockMarker)]))
  }

  /** Whatever attributes are rendered, the output carries the marker and the parse rule matches it. */
  lemma RenderedBlockMatchesRule(htmlAttributes: HtmlAttributes)
    ensures var el := ToElement(RenderHTML(htmlAttributes));
            el.attributes["data-type"] == BlockMarker && Matches(Rule, el)
  {
  }

  /**
   * `src` survives rendering and parsing, `null` included, whatever else is rendered beside it
   * (`others` stands for the rest of the node's rendered attributes).
   */
  lemma SrcRoundTrip(n: AudioNodeAttrs, others: HtmlAttributes)
    ensures ParseSrc(ToElement(RenderHTML(others + RenderSrc(n)))) == n.src
  {
  }

  /** What `insertContent` receives: a node type and its attributes. */
  datatype Content = Content(nodeType: string, attrs: AudioBlockAttrs)

  /** `setAudioBlock(attributes)`: an `audioBlock` node whose attributes are the given ones, unchanged. */
  function SetAudioBlock(attributes: AudioBlockAttrs): (c: Content)
    ensures c.nodeType == NodeName && c.attrs == attributes
  {
    Content(NodeName, attributes)
  }

  /** An inserted block renders its `src` so that parsing the HTML gives back the URL it was inserted with. */
  lemma InsertedSrcSurvivesHtml(attributes: AudioBlockAttrs, others: HtmlAttributes)
    ensures ParseSrc(ToElement(RenderHTML(others + RenderSrc(NodeAttrs(SetAudioBlock(attributes).attrs)))))
            == Some(attributes.src)
  {
    SrcRoundTrip(NodeAttrs(attributes), others);
  }

  // ---------------------------------------------------------------------------------------------
  // formatDuration

  /** JavaScript's `%`: the remainder takes the sign of the dividend. */
  function JsRemainder(a: int, b: int): (r: int)
    requires b > 0
    ensures a >= 0 ==> r == a % b
    ensures a < 0 ==> r == -((-a) % b)
  {
    if a >= 0 then a % b else -((-a) % b)
  }

  /** `formatDuration(seconds)`: the whole minutes, a colon, then the remaining seconds written with two digits. */
  function FormatDuration(seconds: int): (text: string)
    ensures seconds >= 0 ==> |text| >= 4 && text[|text| - 3] == ':'
    ensures seconds >= 0 ==> text[..|text| - 3] == NatToString(seconds / 60)
    ensures seconds >= 0 ==> AllDigits(text[|text| - 2..]) && DigitsValue(text[|text| - 2..]) == seconds % 60
  {
    var mins := seconds / 60;
    var secs := JsRemainder(seconds, 60);
    var padded := PadStart(IntToString(secs), 2, '0');
    var text := IntToString(mins) + ":" + padded;
    assert seconds >= 0 ==> |padded| == 2 && AllDigits(padded) && DigitsValue(padded) == seconds % 60 by {
      if seconds >= 0 {
        TwoDigits(secs);
      }
    }
    assert seconds >= 0 ==> text[..|text| - 3] == IntToString(mins) && text[|text| - 2..] == padded;
    text
  }

  /** A number of seconds below 60, padded to two characters, is two digits whose value is that number. */
  lemma TwoDigits(secs: int)
    requires 0 <= secs < 60
    ensures var p := PadStart(IntToString(secs), 2, '0');
            |p| == 2 && AllDigits(p) && DigitsValue(p) == secs
  {
    var p := PadStart(IntToString(secs), 2, '0');
    if secs < 10 {
      assert IntToString(secs) == [DigitChar(secs)];
      assert p == ['0', DigitChar(secs)];
      assert p[..1] == ['0'];
      assert DigitsValue(p[..1]) == 0 by {
        assert p[..1][..0] == [];
      }
    } else {
      assert NatToString(secs / 10) == [DigitChar(secs / 10)];
      assert IntToString(secs) == [DigitChar(secs / 10), DigitChar(secs % 10)];
      assert p == [DigitChar(secs / 10), DigitChar(secs % 10)];
      assert p[..1] == [DigitChar(secs / 10)];
      assert DigitsValue(p[..1]) == secs / 10 by {
        assert p[..1][..0] == [];
      }
    }
  }

  /** The index of the first `c` in `s`. */
  function IndexOf(s: string, c: char): (i: Option<nat>)
    ensures i.Some? ==> i.value < |s| && s[i.value] == c && c !in s[..i.value]
    ensures i.None? ==> c !in s
  {
    if s == [] then None
    else if s[0] == c then Some(0)
    else match IndexOf(s[1..], c)
      case None => None
      case Some(j) => assert s[..j + 1] == [s[0]] + s[1..][..j]; Some(j + 1)
  }

  /** Reads `m:ss` back into seconds: decimal minutes, a colon, two digits below 60. */
  function ParseDuration(text: string): Option<nat> {
    match IndexOf(text, ':')
    case None => None
    case Some(i) =>
      var mins := ParseNat(text[..i]);
      var secs := text[i + 1..];
      if mins.Some? && |secs| == 2 && AllDigits(secs) && DigitsValue(secs) < 60
      then Some(mins.value * 60 + DigitsValue(secs))
      else None
  }

  /** Parsing a formatted duration gives back the number of seconds. */
  lemma DurationRoundTrip(seconds: nat)
    ensures ParseDuration(FormatDuration(seconds)) == Some(seconds)
  {
    ReadBackDuration(FormatDuration(seconds), seconds);
  }

  /** Any text of the shape `FormatDuration` promises for `seconds` parses back as `seconds`. */
  lemma ReadBackDuration(text: string, seconds: nat)
    requires |text| >= 4 && text[|text| - 3] == ':'
    requires text[..|text| - 3] == NatToString(seconds / 60)
    requires AllDigits(text[|text| - 2..]) && DigitsValue(text[|text| - 2..]) == seconds % 60
    ensures ParseDuration(text) == Some(seconds)
  {
    var mins := text[..|text| - 3];
    var secs := text[|text| - 2..];
    assert text == mins + [':'] + secs;
    ParseNatToString(seconds / 60);
    ParseMinutesSeconds(mins, secs);
    assert (seconds / 60) * 60 + seconds % 60 == seconds;
  }

  /** `m:ss`, with `m` decimal digits and `ss` two digits below 60, parses as `m * 60 + ss`. */
  lemma ParseMinutesSeconds(mins: string, secs: string)
    requires mins != [] && AllDigits(mins)
    requires |secs| == 2 && AllDigits(secs) && DigitsValue(secs) < 60
    ensures ParseDuration(mins + [':'] + secs) == Some(ParseNat(mins).value * 60 + DigitsValue(secs))
  {
    var text := mins + [':'] + secs;
    assert ':' !in mins;
    IndexOfFirst(mins, ':', secs);
    assert text[..|mins|] == mins && text[|mins| + 1..] == secs;
  }

  /** The first `c` of `a + [c] + b` is the one after `a` when `a` has none. */
  lemma IndexOfFirst(a: string, c: char, b: string)
    requires c !in a
    ensures IndexOf(a + [c] + b, c) == Some(|a|)
  {
    var s := a + [c] + b;
    assert s[|a|] == c;
    assert forall j :: 0 <= j < |a| ==> s[j] == a[j];
  }

  const UnknownDuration: string := "Durée inconnue"

  /** The duration line of the block's view: a formatted time, or "Durée inconnue" for 0 or no duration. */
  function DurationLabel(duration: Option<int>): (shown: string)
    ensures duration.None? || duration.value == 0 ==> shown == UnknownDuration
    ensures duration.Some? && duration.value > 0 ==> ParseDuration(shown) == Some(duration.value)
  {
    if duration.None? || duration.value == 0 then UnknownDuration
    else
      assert duration.value > 0 ==> ParseDuration(FormatDuration(duration.value)) == Some(duration.value) by {
        if duration.value > 0 { DurationRoundTrip(duration.value); }
      }
      FormatDuration(duration.value)
  }

  // ---------------------------------------------------------------------------------------------
  // The preview player of the block's view

  /** The view's `isPlaying` state and the hidden `<audio>` element behind `audioRef`. */
  class AudioPreview {
    var isPlaying: bool
    const hasAudio: bool
    var paused: bool

    /** The Play/Pause label agrees with the element. */
    ghost predicate Valid()
      reads this
    {
      isPlaying == !paused
    }

    constructor (hasAudio: bool)
      ensures Valid() && !isPlaying && this.hasAudio == hasAudio
    {
      isPlaying := false;
      this.hasAudio := hasAudio;
      paused := true;
    }

    /** `togglePlay`: nothing without an element; otherwise pause or play it and flip `isPlaying`. */
    method TogglePlay()
      requires Valid()
      modifies this
      ensures Valid()
      ensures hasAudio ==> isPlaying == !old(isPlaying)
      ensures !hasAudio ==> isPlaying == old(isPlaying) && paused == old(paused)
    {
      if !hasAudio {
        return;
      }
      if isPlaying {
        paused := true;
      } else {
        paused := false;
      }
      isPlaying := !isPlaying;
    }

    /** The element's `ended` event: playback stopped, `isPlaying` set to false. */
    method Ended()
      modifies this
      ensures Valid() && !isPlaying
    {
      paused := true;
      isPlaying := false;
    }
  }
}
