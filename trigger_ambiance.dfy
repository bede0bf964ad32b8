/**
 * The immersive trigger of `src/components/author/editor/extensions/trigger-ambiance.tsx`: an
 * invisible block that makes the reader's view play a sound or show an image or a video when it
 * scrolls into sight. Modelled here: its attribute schema and defaults, its HTML mapping, its
 * insert command with the generated id, and the settings panel of its editor view.
 */
module TriggerAmbiance {
  import opened Wrappers
  import opened Text
  import opened Schema
  import opened EditorTypes
  import Utils
  import AudioBlock

  /** The node type name (`name: 'triggerAmbiance'`). */
  const NodeName: string := "triggerAmbiance"

  /** The `data-type` marker of a rendered trigger. */
  const BlockMarker: string := "trigger-ambiance"

  /** The class the reader's intersection observer looks for. */
  const MarkerClass: string := "trigger-ambiance-marker"

  /**
   * The attributes a trigger node holds. The source's `type` attribute is `mediaType` here; media
   * type and action are strings, as the node keeps whatever it was given or edited to.
   */
  datatype TriggerNodeAttrs = TriggerNodeAttrs(
    id: Option<string>,
    mediaType: string,
    mediaUrl: Option<string>,
    mediaId: Option<string>,
    action: string,
    fadeInDuration: int,
    fadeOutDuration: int,
    loop: bool,
    volume: Volume)

  /** `addAttributes`: the default of each attribute. */
  function Defaults(): (d: TriggerNodeAttrs)
    ensures d.id.None? && d.mediaUrl.None? && d.mediaId.None?
    ensures d.mediaType == MediaTypeName(Audio) && d.action == ActionName(Play)
    ensures d.fadeInDuration == 2000 && d.fadeOutDuration == 2000
    ensures !d.loop && d.volume == 0.7
  {
    TriggerNodeAttrs(None, "audio", None, None, "play", 2000, 2000, false, 0.7)
  }

  /** The node's attributes when created from given ones: what is given is kept, the rest takes its default. */
  function NodeAttrs(given: TriggerAmbianceAttrs): (n: TriggerNodeAttrs)
    ensures n.id == Some(given.id) && n.mediaUrl == Some(given.mediaUrl) && n.mediaId == given.mediaId
    ensures ParseMediaType(n.mediaType) == Some(given.mediaType)
    ensures ParseAction(n.action) == Some(given.action)
    ensures n.fadeInDuration == given.fadeInDuration.GetOr(Defaults().fadeInDuration)
    ensures n.fadeOutDuration == given.fadeOutDuration.GetOr(Defaults().fadeOutDuration)
    ensures n.loop == given.loop.GetOr(Defaults().loop)
    ensures n.volume == given.volume.GetOr(Defaults().volume)
  {
    MediaTypeNameRoundTrip(given.mediaType);
    ActionNameRoundTrip(given.action);
    TriggerNodeAttrs(
      Some(given.id), MediaTypeName(given.mediaType), Some(given.mediaUrl), given.mediaId,
      ActionName(given.action), given.fadeInDuration.GetOr(2000), given.fadeOutDuration.GetOr(2000),
      given.loop.GetOr(false), given.volume.GetOr(0.7))
  }

  // ---------------------------------------------------------------------------------------------
  // HTML mapping

  /** `id.renderHTML`, `type.renderHTML` and `mediaUrl.renderHTML`, merged: the three mapped attributes. */
  function RenderedAttributes(n: TriggerNodeAttrs): HtmlAttributes {
    map["data-id" := n.id, "data-trigger-type" := Some(n.mediaType), "data-media-url" := n.mediaUrl]
  }

  /** `id.parseHTML`. */
  function ParseId(el: Element): Option<string> {
    GetAttribute(el, "data-id")
  }

  /** `type.parseHTML`. */
  function ParseMediaTypeAttr(el: Element): Option<string> {
    GetAttribute(el, "data-trigger-type")
  }

  /** `mediaUrl.parseHTML`. */
  function ParseMediaUrl(el: Element): Option<string> {
    GetAttribute(el, "data-media-url")
  }

  /**
   * The attributes that have their own HTML mapping, as parsing reads them back from an element.
   * The other six attributes go through Tiptap's default mapping, which this model does not cover.
   */
  datatype ParsedTrigger = ParsedTrigger(id: Option<string>, mediaType: string, mediaUrl: Option<string>)

  /**
   * The mapped attributes read back from an element, each from its own `data-` attribute. A missing
   * id or URL is read as `null`; a missing type leaves the default media type in place.
   */
  function ParseNode(el: Element): (t: ParsedTrigger)
    ensures t.id == ParseId(el) && t.mediaUrl == ParseMediaUrl(el)
    ensures ParseMediaTypeAttr(el).Some? ==> t.mediaType == ParseMediaTypeAttr(el).value
    ensures ParseMediaTypeAttr(el).None? ==> t.mediaType == Defaults().mediaType
  {
    ParsedTrigger(ParseId(el), ParseMediaTypeAttr(el).GetOr("audio"), ParseMediaUrl(el))
  }

  /** `parseHTML`: the rule `div[data-type="trigger-ambiance"]`. */
  const Rule: ParseRule := ParseRule("div", "data-type", BlockMarker)

  /** `renderHTML`: a `div` carrying the rendered attributes, the `data-type` marker and the marker class. */
  function RenderHTML(htmlAttributes: HtmlAttributes): DomSpec {
    DomSpec("div", MergeAttributes(htmlAttributes, map["data-type" := Some(BlockMarker), "class" := Some(MarkerClass)]))
  }

  /**
   * Whatever attributes are rendered, the output is matched by the trigger's parse rule, not by the
   * audio block's, and ends its class list with the marker class the reader observes.
   */
  lemma RenderedTriggerIsMarked(htmlAttributes: HtmlAttributes)
    ensures var el := ToElement(RenderHTML(htmlAttributes));
            Matches(Rule, el) && !Matches(AudioBlock.Rule, el)
            && "class" in el.attributes && LastClass(el.attributes["class"], MarkerClass)
  {
    var later := map["data-type" := Some(BlockMarker), "class" := Some(MarkerClass)];
    MergeClassLast(htmlAttributes, later, MarkerClass);
  }

  /** A rendered audio block is never read as a trigger. */
  lemma AudioBlockIsNotTrigger(htmlAttributes: HtmlAttributes)
    ensures !Matches(Rule, ToElement(AudioBlock.RenderHTML(htmlAttributes)))
  {
  }

  /**
   * The id, media type and media URL survive rendering and parsing, `null` included, whatever is
   * rendered beside them.
   */
  lemma MappedAttributesRoundTrip(n: TriggerNodeAttrs, others: HtmlAttributes)
    ensures ParseNode(ToElement(RenderHTML(others + RenderedAttributes(n))))
            == ParsedTrigger(n.id, n.mediaType, n.mediaUrl)
  {
  }

  // ---------------------------------------------------------------------------------------------
  // setTriggerAmbiance

  /** What `insertContent` receives: a node type and its attributes. */
  datatype TriggerContent = TriggerContent(nodeType: string, attrs: TriggerAmbianceAttrs)

  /** The id generated for a trigger inserted without one, from `Date.now()`. */
  function GeneratedId(now: nat): (id: string)
    ensures |id| > |"trigger-"| && id[..|"trigger-"|] == "trigger-"
    ensures ParseNat(id[|"trigger-"|..]) == Some(now)
  {
    ParseNatToString(now);
    var id := "trigger-" + NatToString(now);
    assert id[|"trigger-"|..] == NatToString(now);
    id
  }

  /**
   * `setTriggerAmbiance(attributes)` at clock time `now`: a `triggerAmbiance` node with the given
   * attributes, whose empty id is replaced by one generated from the clock.
   */
  function SetTriggerAmbiance(attributes: TriggerAmbianceAttrs, now: nat): (c: TriggerContent)
    ensures c.nodeType == NodeName
    ensures c.attrs == attributes.(id := c.attrs.id)
    ensures c.attrs.id != ""
    ensures attributes.id != "" ==> c.attrs.id == attributes.id
    ensures attributes.id == "" ==> c.attrs.id == GeneratedId(now)
  {
    TriggerContent(NodeName, attributes.(id := if attributes.id != "" then attributes.id else GeneratedId(now)))
  }

  /** Inserting the attributes of an inserted trigger again keeps its id, whatever the clock says. */
  lemma SetTriggerAmbianceIdempotent(attributes: TriggerAmbianceAttrs, now: nat, later: nat)
    ensures var c := SetTriggerAmbiance(attributes, now);
            SetTriggerAmbiance(c.attrs, later) == c
  {
  }

  /** Triggers inserted without an id at different clock times get different ids. */
  lemma GeneratedIdsDiffer(attributes: TriggerAmbianceAttrs, now: nat, other: nat)
    requires attributes.id == "" && now != other
    ensures SetTriggerAmbiance(attributes, now).attrs.id != SetTriggerAmbiance(attributes, other).attrs.id
  {
  }

  /** An inserted trigger renders its id and URL so that parsing the HTML gives them back. */
  lemma InsertedTriggerSurvivesHtml(attributes: TriggerAmbianceAttrs, now: nat, others: HtmlAttributes)
    ensures var n := NodeAttrs(SetTriggerAmbiance(attributes, now).attrs);
            var back := ParseNode(ToElement(RenderHTML(others + RenderedAttributes(n))));
            back.id.Some? && back.id.value != "" && back.mediaUrl == Some(attributes.mediaUrl)
            && ParseMediaType(back.mediaType) == Some(attributes.mediaType)
  {
    var n := NodeAttrs(SetTriggerAmbiance(attributes, now).attrs);
    MappedAttributesRoundTrip(n, others);
  }

  // ---------------------------------------------------------------------------------------------
  // The settings panel of the editor view

  /** The `<option>` values of the action selector, in order. */
  const ActionOptions: seq<string> := ["play", "stop", "fade-in", "fade-out"]

  /** The selector offers each action exactly once and nothing else. */
  lemma ActionOptionsAreTheActions()
    ensures |ActionOptions| == 4
    ensures forall i, j :: 0 <= i < j < |ActionOptions| ==> ActionOptions[i] != ActionOptions[j]
    ensures forall a: TriggerAction :: ActionName(a) in ActionOptions
    ensures forall s :: s in ActionOptions ==> ParseAction(s).Some?
  {
    assert ActionName(Play) == ActionOptions[0];
    assert ActionName(Stop) == ActionOptions[1];
    assert ActionName(FadeIn) == ActionOptions[2];
    assert ActionName(FadeOut) == ActionOptions[3];
  }

  /** The controls of the settings panel. */
  datatype Setting = ActionSelect | FadeInInput | VolumeSlider | LoopCheckbox

  /**
   * The controls the open panel shows for a node: the action always, the fade-in duration for a
   * `fade-in` or `play` action, the volume and the loop for an audio trigger.
   */
  function SettingsShown(n: TriggerNodeAttrs): (shown: set<Setting>)
    ensures ActionSelect in shown
    ensures FadeInInput in shown <==> n.action == "fade-in" || n.action == "play"
    ensures VolumeSlider in shown <==> n.mediaType == "audio"
    ensures LoopCheckbox in shown <==> n.mediaType == "audio"
  {
    {ActionSelect}
    + (if n.action == "fade-in" || n.action == "play" then {FadeInInput} else {})
    + (if n.mediaType == "audio" then {VolumeSlider, LoopCheckbox} else {})
  }

  /**
   * For an inserted trigger the panel follows its enumerations: the fade-in input for `Play` and
   * `FadeIn` only, the volume and the loop for `Audio` only. No control edits the fade-out duration.
   */
  lemma SettingsFollowAttrs(given: TriggerAmbianceAttrs)
    ensures var shown := SettingsShown(NodeAttrs(given));
            (FadeInInput in shown <==> given.action == Play || given.action == FadeIn)
            && (VolumeSlider in shown <==> given.mediaType == Audio)
            && (LoopCheckbox in shown <==> given.mediaType == Audio)
  {
    var n := NodeAttrs(given);
    assert n.action == ActionName(given.action);
    assert n.mediaType == MediaTypeName(given.mediaType);
  }

  /** An edit made through the settings panel (`updateAttributes` with one field). */
  datatype Edit =
    | ChooseAction(action: string)
    | SetFadeIn(fadeInDuration: int)
    | SetVolume(volume: Volume)
    | SetLoop(loop: bool)

  /** `updateAttributes` with one field: that attribute takes its new value, every other one is kept. */
  function ApplyEdit(n: TriggerNodeAttrs, e: Edit): (r: TriggerNodeAttrs)
    ensures e.ChooseAction? ==> r == n.(action := e.action)
    ensures e.SetFadeIn? ==> r == n.(fadeInDuration := e.fadeInDuration)
    ensures e.SetVolume? ==> r == n.(volume := e.volume)
    ensures e.SetLoop? ==> r == n.(loop := e.loop)
  {
    match e
    case ChooseAction(a) => n.(action := a)
    case SetFadeIn(d) => n.(fadeInDuration := d)
    case SetVolume(v) => n.(volume := v)
    case SetLoop(l) => n.(loop := l)
  }

  /** Which attribute an edit writes. */
  function EditedField(e: Edit): nat {
    match e
    case ChooseAction(_) => 0
    case SetFadeIn(_) => 1
    case SetVolume(_) => 2
    case SetLoop(_) => 3
  }

  /**
   * A panel edit changes its own attribute and nothing else: neither the id, the media, the
   * fade-out duration, the other three panel attributes nor the three attributes rendered to HTML;
   * and edits of different attributes commute.
   */
  lemma EditsAreLocal(n: TriggerNodeAttrs, e: Edit, f: Edit)
    ensures var r := ApplyEdit(n, e);
            r.id == n.id && r.mediaType == n.mediaType && r.mediaUrl == n.mediaUrl && r.mediaId == n.mediaId
            && r.fadeOutDuration == n.fadeOutDuration
            && (EditedField(e) != 0 ==> r.action == n.action)
            && (EditedField(e) != 1 ==> r.fadeInDuration == n.fadeInDuration)
            && (EditedField(e) != 2 ==> r.volume == n.volume)
            && (EditedField(e) != 3 ==> r.loop == n.loop)
            && RenderedAttributes(r) == RenderedAttributes(n)
            && SettingsShown(r) - {FadeInInput} == SettingsShown(n) - {FadeInInput}
    ensures EditedField(e) != EditedField(f) ==> ApplyEdit(ApplyEdit(n, e), f) == ApplyEdit(ApplyEdit(n, f), e)
  {
  }

  /** Choosing any offered action keeps, or makes, the node's action one the enumeration names. */
  lemma ChosenActionIsAnAction(n: TriggerNodeAttrs, i: nat)
    requires i < |ActionOptions|
    ensures ParseAction(ApplyEdit(n, ChooseAction(ActionOptions[i])).action).Some?
  {
  }

  /** The text under the trigger's title: the last path segment of its media URL, or "Aucun média". */
  const NoMediaText: string := "Aucun média"

  /**
   * The label shown under the trigger's title: the last `/`-separated segment of the path of its
   * media URL, or the no-media text when the URL is absent or empty. Parsing a URL is left to the
   * parameter `pathname`, which gives the path of a URL.
   */
  function MediaLabel(mediaUrl: Option<string>, pathname: string -> string): (shown: string)
    ensures !Truthy(mediaUrl) ==> shown == NoMediaText
    ensures Truthy(mediaUrl) ==> var path := pathname(mediaUrl.value);
              '/' !in shown && EndsWith(path, shown) && (|shown| < |path| ==> path[|path| - |shown| - 1] == '/')
  {
    if Truthy(mediaUrl) then Utils.LastSegment(pathname(mediaUrl.value), '/') else NoMediaText
  }
}
