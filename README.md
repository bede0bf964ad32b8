# immers-write editor core, modelled in Dafny

immers-write is a writing platform for immersive fiction. Authors write chapters in a Tiptap
(ProseMirror) editor and place two custom blocks in the text:
- an **audio block**, a visible sound clip with a preview player;
- an **ambiance trigger**, a block the reader never sees, which starts a sound, an image or a
  video when the reader scrolls to it.

This project models the core of that editor and proves properties of the model:

- **Utils** (`src/lib/utils.ts`): reading time, relative time, slugs, truncation, file-extension
  checks and `debounce`. `debounce` is modelled twice: as a pure state (`Debounce`), and as a
  class whose methods update the closure's `timeout` in place.
- **WordCount** (`src/fichiers/editor_usage_example.ts`): `calculateWordCount` over the editor's
  JSON document. It is an imperative traversal with a mutable counter, proved equal to a
  recursive definition. It is also proved equal to an independent one: a sum over the nodes
  reached in pre-order.
- **TiptapEditor** (`src/fichiers/tiptap_editor_main.ts`): the autosave coordinator.
  - It is an event-driven state machine: document changes, new props, time passing, the
    "save now" button, and teardown.
  - It has an explicit event loop with ordered timers.
  - It includes the save indicator, `formatLastSaved`, and the word-count and reading-time line.
  - `EditorSession` is the same machine as a class whose fields the events update.
- **AudioBlock** (`audio-block.tsx`): attribute defaults, the `data-src` mapping, the parse rule,
  `setAudioBlock`, `formatDuration` with its inverse, and the Play/Pause state of the preview.
- **TriggerAmbiance** (`trigger-ambiance.tsx`): attribute defaults, the three `data-*` mappings,
  the marker class, `setTriggerAmbiance` with its generated id, and the settings panel (which
  controls it shows, and the edits they make).
- **EditorTypes** (`editor.types.ts`): the attribute records and the media-type and action
  enumerations.
- Shared helpers used by those modules:
  - **Wrappers**: `Option`;
  - **Text**: JavaScript whitespace, `trim`, decimal notation, `padStart`;
  - **Timers**: the `setTimeout` delay (32-bit conversion, then the clamp at 0), whole seconds elapsed;
  - **Schema**: DOM attributes, `getAttribute`, `mergeAttributes`, parse rules.

Modelling choices:
- Time is integer milliseconds, and a clock reading is a parameter.
- The document the editor holds is a type parameter `D`.
- The `onSave` callback is an identity token, since the effect compares it by identity.
- `onSave` is not awaited. So `lastSaved` is set as soon as `onSave` returns, whatever becomes of
  the save, and the model has no failure path for it.
- The manual save button neither cancels the pending autosave timer nor looks at `isSaving`.
- A torn-down component ignores all later events, and its clock stops.
- Pending `setIsSaving(false)` timers stay queued after teardown. Their React state updates would
  have no effect anyway.

## Model

| member | source | states |
|---|---|---|
| `Utils.CalculateReadingTime` | src/lib/utils.ts:54-56 | The reading time `m` covers the words and one minute less does not: `200(m-1) < w <= 200m`, i.e. `Math.ceil(w / 200)`. |
| `Utils.ReadingTimeIsLeast` | src/lib/utils.ts:54-56 | Any number of minutes that covers the words is at least the reading time. |
| `Utils.FormatRelativeTime` | src/lib/utils.ts:38-49 | Below 60 s the text is "à l'instant". Otherwise it is "il y a N" plus the unit's suffix, where the unit is the largest that fits and N counts whole units. |
| `Utils.RelativeTimeBuckets` | src/lib/utils.ts:43-48 | From 60 s on, exactly one unit applies and the text is never "à l'instant". The count is at least 1 and below the number of such units in the next one: under 60 minutes, 24 hours and 30 days, and at most 12 months (365 days exceed 12 months of 30 days). |
| `Utils.RemoveDisallowed` | src/lib/utils.ts:67 | Only `a-z`, `0-9`, whitespace and `-` remain, each taken from the input, and a string already made of them is unchanged. |
| `Utils.RemoveDisallowedAppend` | src/lib/utils.ts:67 | Removal distributes over concatenation, so it works character by character. |
| `Utils.RemoveDisallowedChar` | src/lib/utils.ts:67 | One character stays iff it is in `a-z`, `0-9`, whitespace or `-`. With the previous lemma this fixes the result for every input. |
| `Utils.ReplaceRuns` | src/lib/utils.ts:69-70 | Each maximal run is replaced by one character. The result is empty iff the input is, and its first character is the input's or the replacement. When the replacement is itself a run character, no two neighbours are run characters. |
| `Utils.ReplaceRunsIsScan` | src/lib/utils.ts:69-70 | The replacement agrees with an independent left-to-right scan: it writes the replacement at the start of each run, skips the rest of the run, and copies every other character. |
| `Utils.ReplaceRunsKeepsOthers` | src/lib/utils.ts:69-70 | Deleting the replacement character from the result leaves exactly the input's other non-run characters, in order. |
| `Utils.ReplaceRunsCountsRuns` | src/lib/utils.ts:69-70 | When the replacement occurs in the input only inside runs, the result holds it once per maximal run. |
| `Utils.ReplaceIsolated` | src/lib/utils.ts:69-70 | When no two neighbours are run characters, the replacement is a pointwise substitution. |
| `Utils.GenerateSlug` | src/lib/utils.ts:62-71 | The slug holds only `a-z`, `0-9` and `-`, has no whitespace and no two adjacent dashes. |
| `Utils.ReplaceRunsUnchanged` | src/lib/utils.ts:69-70 | Collapsing runs leaves a string unchanged when its run characters are isolated copies of the replacement. |
| `Utils.SlugKeepsLettersAndDigits` | src/lib/utils.ts:62-71 | Deleting the dashes from the slug leaves exactly the text's letters `a-z` and digits, in order. |
| `Utils.ApostropheJoinsWords` | src/lib/utils.ts:67 | As written, an apostrophe is deleted: `a'b` gives the slug of `ab`. |
| `Utils.ApostropheDropped` | src/lib/utils.ts:59-71 | Two words of letters and digits joined by an apostrophe give the words run together, not separated by a dash (`d'a` gives `da`). |
| `Utils.GenerateSlugAsDocumented` | src/lib/utils.ts:59-71 | The documented behaviour, where an apostrophe separates words like whitespace: still a slug, with no whitespace. |
| `Utils.ApostropheSeparatesWords` | src/lib/utils.ts:59-60 | In the documented behaviour, two words joined by an apostrophe give the words joined by one dash (`d'a` gives `d-a`). |
| `Utils.WithoutApostrophesSameSlug` | src/lib/utils.ts:62-71 | On text without apostrophes, the documented and the written behaviour agree. |
| `Utils.SlugUnchanged` | src/lib/utils.ts:62-71 | A slug is a fixed point of slug generation. |
| `Utils.SlugIdempotent` | src/lib/utils.ts:62-71 | Generating a slug twice gives the same slug as once. |
| `Utils.SliceEnd` | src/lib/utils.ts:78 | The end index of `slice(0, length)`: it is within the string, and a negative length counts from the back. |
| `Utils.Truncate` | src/lib/utils.ts:76-79 | A text no longer than `length` is returned as is. A longer one ends with "...", is trimmed before it, and is at most `length + 3` long. |
| `Utils.TruncateKeepsText` | src/lib/utils.ts:76-79 | What precedes "..." is a slice of the original text. Only whitespace lies between it and the cut, at either end. |
| `Utils.LastSegment` | src/lib/utils.ts:97 | `split(sep).pop()` is the suffix after the last separator: it holds no separator, and a separator precedes it unless it is the whole string. |
| `Utils.LastSegmentAfterDot` | src/lib/utils.ts:97 | The extension of `name.ext` is `ext` when `ext` has no dot. |
| `Utils.FileTypeByExtension` | src/lib/utils.ts:96-99 | `name.ext` is valid iff `ext` is non-empty and its lower-case form is allowed. |
| `Utils.IsValidFileType` | src/lib/utils.ts:96-99 | The definition: the extension is lower-cased and must be non-empty and allowed. `FileTypeByExtension` and `FileTypeWithoutDot` state what it decides. |
| `Utils.FileTypeWithoutDot` | src/lib/utils.ts:96-99 | A name without a dot is judged by the whole lower-cased name. |
| `Utils.NewDebounce` | src/lib/utils.ts:116 | A fresh debounced function has no pending timeout and has run nothing. |
| `Utils.DebounceCall` | src/lib/utils.ts:118-126 | A call replaces any pending timeout with one carrying its arguments, one delay from now. |
| `Utils.DebounceElapse` | src/lib/utils.ts:119-122 | A timeout falling due empties the slot and runs the function once with its arguments. Otherwise only the clock moves. |
| `Utils.DebounceStep` | src/lib/utils.ts:118-126 | One call or pause. The clock moves only on a pause, and the function runs at most once; earlier runs are kept. |
| `Utils.DebounceRun` | src/lib/utils.ts:112-127 | A sequence of events. The clock moves by the total of the pauses, and the runs only grow: at most one per event, appended after the earlier ones. |
| `Utils.BurstCoalesces` | src/lib/utils.ts:112-127 | After calls spaced less than the delay apart, the function has not run again. One timeout is pending, one delay after the last call, with its arguments. |
| `Utils.QuietPeriodRunsOnce` | src/lib/utils.ts:112-127 | A burst followed by a quiet delay runs the function exactly once, with the last call's arguments. |
| `Utils.DebouncedFunction.constructor` | src/lib/utils.ts:116 | The closure starts with an empty timeout slot. |
| `Utils.DebouncedFunction.Call` | src/lib/utils.ts:118-126 | Updates the closure state as `DebounceCall` specifies. |
| `Utils.DebouncedFunction.Elapse` | src/lib/utils.ts:119-122 | Updates the closure state as `DebounceElapse` specifies. |
| `Text.IsSpace` | src/fichiers/editor_usage_example.ts:100 | The definition: the ECMAScript WhiteSpace and LineTerminator code points, which `trim` removes and `\s` matches. |
| `Text.ToLower` | src/lib/utils.ts:97 | `toLowerCase` maps each character to its lower-case form, position by position (ASCII only). |
| `Text.Trim` | src/fichiers/editor_usage_example.ts:100 | `trim()`: a result no longer than the input, with no whitespace at either end. |
| `Text.PadStart` | src/components/author/editor/extensions/audio-block.tsx:115 | `padStart`: width reached by leading fill characters, and the input kept as the suffix. |
| `Text.IntToString` | src/components/author/editor/extensions/audio-block.tsx:115 | `toString()` of an integer: a minus sign before the decimal notation of its magnitude. |
| `Timers.ToInt32` | src/fichiers/tiptap_editor_main.ts:135-143 | The WebIDL `long` conversion: a signed 32-bit value congruent to the input modulo 2^32. |
| `Timers.Delay` | src/fichiers/tiptap_editor_main.ts:135-143 | A `setTimeout` delay is below 2^31 ms. Delays from 0 to 2^31 - 1 are kept. Negative delays act as 0, and so do delays from 2^31 to 2^32 - 1, which wrap to negative values. |
| `Timers.ElapsedSeconds` | src/fichiers/tiptap_editor_main.ts:213 | Whole seconds elapsed, rounded down: `1000s <= diff < 1000(s+1)`. |
| `WordCount.SplitOnSpaces` | src/fichiers/editor_usage_example.ts:100 | `split(/\s+/)` always yields at least one piece. |
| `WordCount.SplitCountsSpaceRuns` | src/fichiers/editor_usage_example.ts:100 | The split has one more piece than the text has maximal runs of whitespace. |
| `WordCount.WordRunsAlternate` | src/fichiers/editor_usage_example.ts:100 | In a text ending with a non-space character, runs of words and runs of whitespace alternate. |
| `WordCount.WordsIn` | src/fichiers/editor_usage_example.ts:100 | The definition: the number of pieces of the trimmed text split on whitespace. `WordsInCountsWords` states what it counts. |
| `WordCount.WordsInCountsWords` | src/fichiers/editor_usage_example.ts:100 | A text counts 1 when it is blank, and otherwise the number of maximal runs of non-space characters of its trimmed form, its words. |
| `WordCount.NodeWords` | src/fichiers/editor_usage_example.ts:98-105 | The definition: a node's own words plus those of its `content` list. `Traverse` and `NodeWordsIsSumOverReached` state what it counts. |
| `WordCount.ListWords` | src/fichiers/editor_usage_example.ts:104 | The definition: the sum over a list of siblings. `ListWordsAppend` and `ListWordsIsSumOverReached` state what it counts. |
| `WordCount.DocumentWords` | src/fichiers/editor_usage_example.ts:95 | A null document, or one without `content`, counts 0. |
| `WordCount.Traverse` | src/fichiers/editor_usage_example.ts:98-105 | `traverse` adds to the counter the node's own words and those of everything below it. |
| `WordCount.CalculateWordCount` | src/fichiers/editor_usage_example.ts:94-109 | The counter's final value is the document's word count. |
| `WordCount.ListWordsAppend` | src/fichiers/editor_usage_example.ts:107 | The count of a concatenated list of nodes is the sum of the counts. |
| `WordCount.RootTextIgnored` | src/fichiers/editor_usage_example.ts:107 | The root's own `text` does not change the count. |
| `WordCount.DocumentWordsAppend` | src/fichiers/editor_usage_example.ts:107 | The document count is additive over the top-level list. |
| `WordCount.OwnWordsBounds` | src/fichiers/editor_usage_example.ts:99-101 | Non-empty text adds at least one word. Missing or empty text adds none. |
| `WordCount.BlankTextCountsOne` | src/fichiers/editor_usage_example.ts:100 | Whitespace-only text counts as one word. |
| `WordCount.SplitSingleSpaces` | src/fichiers/editor_usage_example.ts:100 | Splitting text without double spaces or other whitespace gives one more piece than there are spaces. |
| `WordCount.SingleSpacedWords` | src/fichiers/editor_usage_example.ts:100 | Words separated by single spaces count as the number of spaces plus one. |
| `WordCount.ListWordsIsSumOverReached` | src/fichiers/editor_usage_example.ts:98-107 | The count equals the sum of own words over every node the traversal reaches, in pre-order. |
| `WordCount.NodeWordsIsSumOverReached` | src/fichiers/editor_usage_example.ts:98-105 | The same for one node and everything below it. |
| `EditorTypes.ParseMediaType` | src/components/author/editor/editor.types.ts:11 | A string read as a media type is that type's name. |
| `EditorTypes.ParseAction` | src/components/author/editor/editor.types.ts:14 | A string read as an action is that action's name. |
| `EditorTypes.MediaTypeNameRoundTrip` | src/components/author/editor/editor.types.ts:11 | Every media type's name reads back as that type, so no two types share a name. |
| `EditorTypes.ActionNameRoundTrip` | src/components/author/editor/editor.types.ts:14 | Every action's name reads back as that action, so no two actions share a name. |
| `Schema.GetAttribute` | src/components/author/editor/extensions/audio-block.tsx:29 | `getAttribute` is `null` exactly when the attribute is not set, and otherwise gives its value. |
| `Schema.ToElement` | src/components/author/editor/extensions/audio-block.tsx:60-62 | The element built from an output spec sets exactly the attributes whose value is not `null`, with those values. |
| `Schema.MergeAttributes` | src/components/author/editor/extensions/trigger-ambiance.tsx:77-80 | The merge has the names of both objects. Later values win, except for `class`, and a name only in the first keeps its value. |
| `Schema.MergeClassLast` | src/components/author/editor/extensions/trigger-ambiance.tsx:79 | A class added by the later object is the last class of the merged list. |
| `AudioBlock.Defaults` | src/components/author/editor/extensions/audio-block.tsx:27-40 | Defaults are src `null`, title "Audio sans titre", duration 0 and mediaId `null`. |
| `AudioBlock.NodeAttrs` | src/components/author/editor/extensions/audio-block.tsx:25-42 | Given attributes are kept. Missing ones take their defaults. |
| `AudioBlock.RenderSrc` | src/components/author/editor/extensions/audio-block.tsx:30 | The definition: `src` rendered as `data-src`. `SrcRoundTrip` states its round trip. |
| `AudioBlock.ParseSrc` | src/components/author/editor/extensions/audio-block.tsx:29 | The definition: `src` read from `data-src`. `SrcRoundTrip` states its round trip. |
| `AudioBlock.RenderHTML` | src/components/author/editor/extensions/audio-block.tsx:60-62 | The definition: a `div` with the marker merged in. `RenderedBlockMatchesRule` states what it guarantees. |
| `AudioBlock.RenderedBlockMatchesRule` | src/components/author/editor/extensions/audio-block.tsx:48-62 | Whatever is rendered carries `data-type="audio-block"` and is matched by the parse rule. |
| `AudioBlock.SrcRoundTrip` | src/components/author/editor/extensions/audio-block.tsx:27-31 | `src`, `null` included, survives rendering and parsing, whatever is rendered beside it. |
| `AudioBlock.SetAudioBlock` | src/components/author/editor/extensions/audio-block.tsx:76-85 | The inserted node is an `audioBlock` with exactly the given attributes. |
| `AudioBlock.InsertedSrcSurvivesHtml` | src/components/author/editor/extensions/audio-block.tsx:27-83 | An inserted block's URL comes back from its rendered HTML. |
| `AudioBlock.JsRemainder` | src/components/author/editor/extensions/audio-block.tsx:114 | JavaScript `%`: the remainder takes the sign of the dividend. |
| `AudioBlock.FormatDuration` | src/components/author/editor/extensions/audio-block.tsx:112-116 | For s ≥ 0: the decimal minutes `⌊s/60⌋`, then a colon, then two digits whose value is `s mod 60`. |
| `AudioBlock.TwoDigits` | src/components/author/editor/extensions/audio-block.tsx:114-115 | Seconds below 60, padded, are exactly two digits with that value. |
| `AudioBlock.ParseDuration` | src/components/author/editor/extensions/audio-block.tsx:112-116 | The reading of a `minutes:seconds` text back into seconds. The source has no such function; it is the inverse against which `DurationRoundTrip` checks `formatDuration`. |
| `AudioBlock.DurationRoundTrip` | src/components/author/editor/extensions/audio-block.tsx:112-116 | Reading back a formatted duration gives the number of seconds. |
| `AudioBlock.DurationLabel` | src/components/author/editor/extensions/audio-block.tsx:139 | No duration, or 0, shows "Durée inconnue". A positive duration shows a time that reads back as it. |
| `AudioBlock.AudioPreview.constructor` | src/components/author/editor/extensions/audio-block.tsx:98-99 | The preview starts paused, with "Play" shown. |
| `AudioBlock.AudioPreview.TogglePlay` | src/components/author/editor/extensions/audio-block.tsx:101-110 | With an element, it pauses or plays it and flips `isPlaying`, keeping the label in step. Without one it changes nothing. |
| `AudioBlock.AudioPreview.Ended` | src/components/author/editor/extensions/audio-block.tsx:164 | The end of playback sets `isPlaying` to false. |
| `TriggerAmbiance.Defaults` | src/components/author/editor/extensions/trigger-ambiance.tsx:28-64 | The defaults:<br>- id, mediaUrl and mediaId `null`;<br>- type "audio" and action "play";<br>- fades 2000 ms each, loop off, volume 0.7. |
| `TriggerAmbiance.NodeAttrs` | src/components/author/editor/extensions/trigger-ambiance.tsx:28-64 | Given attributes are kept, with the enums as their names. Missing optional ones take their defaults. |
| `TriggerAmbiance.RenderedAttributes` | src/components/author/editor/extensions/trigger-ambiance.tsx:30-44 | The definition: the three mapped attributes as `data-id`, `data-trigger-type` and `data-media-url`. `MappedAttributesRoundTrip` states their round trip. |
| `TriggerAmbiance.ParseId` | src/components/author/editor/extensions/trigger-ambiance.tsx:32 | The definition: the id read from `data-id`. |
| `TriggerAmbiance.ParseMediaTypeAttr` | src/components/author/editor/extensions/trigger-ambiance.tsx:37 | The definition: the type read from `data-trigger-type`. |
| `TriggerAmbiance.ParseMediaUrl` | src/components/author/editor/extensions/trigger-ambiance.tsx:42 | The definition: the URL read from `data-media-url`. |
| `TriggerAmbiance.ParseNode` | src/components/author/editor/extensions/trigger-ambiance.tsx:30-44 | The three mapped attributes are read from their `data-*` attributes. A missing id or URL reads as `null`; a missing type leaves the default "audio". |
| `TriggerAmbiance.RenderHTML` | src/components/author/editor/extensions/trigger-ambiance.tsx:74-82 | The definition: a `div` with the marker and the class merged in. `RenderedTriggerIsMarked` states what it guarantees. |
| `TriggerAmbiance.RenderedTriggerIsMarked` | src/components/author/editor/extensions/trigger-ambiance.tsx:66-82 | Rendered output carries `data-type="trigger-ambiance"` and ends its class list with `trigger-ambiance-marker`. It matches the trigger rule and not the audio rule. |
| `TriggerAmbiance.AudioBlockIsNotTrigger` | src/components/author/editor/extensions/trigger-ambiance.tsx:66-72 | A rendered audio block is never parsed as a trigger. |
| `TriggerAmbiance.MappedAttributesRoundTrip` | src/components/author/editor/extensions/trigger-ambiance.tsx:30-44 | id, type and mediaUrl survive rendering and parsing, `null` included, whatever is rendered beside them. |
| `TriggerAmbiance.GeneratedId` | src/components/author/editor/extensions/trigger-ambiance.tsx:95 | The generated id is "trigger-" followed by digits that read back as the timestamp. |
| `TriggerAmbiance.SetTriggerAmbiance` | src/components/author/editor/extensions/trigger-ambiance.tsx:88-100 | The node type is `triggerAmbiance` and the id is never empty: a non-empty given id is kept, an empty one is generated. Every other attribute passes through. |
| `TriggerAmbiance.SetTriggerAmbianceIdempotent` | src/components/author/editor/extensions/trigger-ambiance.tsx:95 | Inserting an inserted trigger's attributes again leaves them unchanged, whatever the clock. |
| `TriggerAmbiance.GeneratedIdsDiffer` | src/components/author/editor/extensions/trigger-ambiance.tsx:95 | Triggers inserted without an id at different times get different ids. |
| `TriggerAmbiance.InsertedTriggerSurvivesHtml` | src/components/author/editor/extensions/trigger-ambiance.tsx:30-97 | An inserted trigger's non-empty id, its media type and its URL come back from its HTML. |
| `TriggerAmbiance.ActionOptionsAreTheActions` | src/components/author/editor/extensions/trigger-ambiance.tsx:192-195 | The selector offers four distinct options: every action's name, and only names that read as actions. |
| `TriggerAmbiance.SettingsShown` | src/components/author/editor/extensions/trigger-ambiance.tsx:180-247 | The action selector always shows. The fade-in input shows iff the action is "fade-in" or "play". Volume and loop show iff the type is "audio". |
| `TriggerAmbiance.SettingsFollowAttrs` | src/components/author/editor/extensions/trigger-ambiance.tsx:200-235 | For an inserted trigger: the fade-in input shows iff the action is Play or FadeIn, and volume and loop show iff the type is Audio. |
| `TriggerAmbiance.ApplyEdit` | src/components/author/editor/extensions/trigger-ambiance.tsx:189-240 | Each panel edit sets its own attribute to the new value and keeps every other attribute. |
| `TriggerAmbiance.EditsAreLocal` | src/components/author/editor/extensions/trigger-ambiance.tsx:189-240 | An edit changes nothing else. Untouched are the id, the media, the fade-out duration, the other three panel attributes, the rendered attributes and the controls other than fade-in. Edits of different attributes commute. |
| `TriggerAmbiance.ChosenActionIsAnAction` | src/components/author/editor/extensions/trigger-ambiance.tsx:187-196 | Choosing an offered option leaves an action the enumeration names. |
| `TriggerAmbiance.MediaLabel` | src/components/author/editor/extensions/trigger-ambiance.tsx:156 | A missing or empty URL shows "Aucun média". Any other URL shows the last segment of its path, which has no slash. |
| `TiptapEditor.DefaultProps` | src/fichiers/tiptap_editor_main.ts:43-44 | `autoSave` defaults to true and `autoSaveDelay` to 30000 ms. |
| `TiptapEditor.Effect` | src/fichiers/tiptap_editor_main.ts:132-147 | The effect clears the pending timer. It arms a new one iff autosave is on, the editor exists and `onSave` is passed. The new timer is due one delay from now, with a fresh rank, and nothing else changes. |
| `TiptapEditor.NewSession` | src/fichiers/tiptap_editor_main.ts:46-147 | Mount: not saving, nothing saved or called, and a timer armed iff the guard holds. |
| `TiptapEditor.FireAutosave` | src/fichiers/tiptap_editor_main.ts:135-143 | When the timer runs:<br>- `isSaving` is set;<br>- `onSave` receives the document as it is then;<br>- `lastSaved` is set to that time;<br>- a reset is queued 1000 ms later;<br>- no timer is left pending. |
| `TiptapEditor.FireReset` | src/fichiers/tiptap_editor_main.ts:142 | The oldest reset turns the indicator off, and nothing else changes. |
| `TiptapEditor.Settle` | src/fichiers/tiptap_editor_main.ts:135-147 | Timers run in order up to the given time. Calls are only appended, the props and the document are untouched, and a timer still pending is the old one, not yet due. |
| `TiptapEditor.Step` | src/fichiers/tiptap_editor_main.ts:132-276 | Every event keeps the invariant: at most one autosave timer, pending only while enabled and due one delay after the last effect run, and ordered reset timers. |
| `TiptapEditor.Run` | src/fichiers/tiptap_editor_main.ts:132-276 | Any sequence of events keeps the invariant. |
| `TiptapEditor.ChangeRearms` | src/fichiers/tiptap_editor_main.ts:133-147 | A document change or changed dependency replaces the timer with at most one new one. It is armed iff the guard holds, due one delay from now, with a rank no other pending timer has, and no save is made. |
| `TiptapEditor.SamePropsNoEffect` | src/fichiers/tiptap_editor_main.ts:147 | Unchanged dependencies do not re-run the effect. |
| `TiptapEditor.NoTimerWhenDisabled` | src/fichiers/tiptap_editor_main.ts:133 | After any events, no timer is pending while autosave is off, the editor is absent or `onSave` is not passed. |
| `TiptapEditor.SettleBeforeDue` | src/fichiers/tiptap_editor_main.ts:135-143 | Time passing before the timer is due makes no call and leaves the timer and `lastSaved` alone. |
| `TiptapEditor.SettleFiresOnce` | src/fichiers/tiptap_editor_main.ts:135-143 | Passing the due time makes exactly one timed call, with the document current when the timer runs. `lastSaved` becomes the due time. |
| `TiptapEditor.IndicatorGoesOff` | src/fichiers/tiptap_editor_main.ts:142 | Once every reset has fallen due with no autosave running meanwhile, `isSaving` is false. |
| `TiptapEditor.TimedSaveIndicator` | src/fichiers/tiptap_editor_main.ts:136-142 | A timed save turns `isSaving` on. 1000 ms later it is off, and `lastSaved` is the save time. |
| `TiptapEditor.SaveNowContract` | src/fichiers/tiptap_editor_main.ts:264-271 | With the editor and `onSave`, the button makes one call with the current document and sets `lastSaved` to now. Otherwise it does nothing. Either way the timer, the resets and `isSaving` are untouched. |
| `TiptapEditor.UnmountIsFinal` | src/fichiers/tiptap_editor_main.ts:146 | Teardown clears the timer, and afterwards no event changes anything, so `onSave` is never called again. |
| `TiptapEditor.DisabledNeverAutosaves` | src/fichiers/tiptap_editor_main.ts:133 | With autosave off and props unchanged, only manual calls are ever added. |
| `TiptapEditor.EditsCoalesce` | src/fichiers/tiptap_editor_main.ts:135-147 | Edits with pauses shorter than the delay, then one long enough pause, make one timed save: the last document, one delay after the last edit. |
| `TiptapEditor.EditThenPause` | src/fichiers/tiptap_editor_main.ts:135-147 | An edit and a short pause make no call, and leave a timer due one delay after the edit. |
| `TiptapEditor.EditThenWait` | src/fichiers/tiptap_editor_main.ts:135-147 | An edit and a long pause make exactly one timed save of that edit's document. |
| `TiptapEditor.TeardownCancelsSave` | src/fichiers/tiptap_editor_main.ts:146 | An edit torn down after 200 ms, with a 500 ms delay, is never saved. |
| `TiptapEditor.FormatLastSaved` | src/fichiers/tiptap_editor_main.ts:210-218 | Nothing saved gives "". Below an hour it gives the relative-time text of the seconds elapsed. From an hour on it gives the clock time of the save. |
| `TiptapEditor.LastSavedMinutes` | src/fichiers/tiptap_editor_main.ts:213-216 | "à l'instant" iff less than a minute has passed. Below an hour it shows "il y a N min", with N from 1 to 59. |
| `TiptapEditor.SaveIndicator` | src/fichiers/tiptap_editor_main.ts:234-250 | The indicator is hidden without autosave. It then shows "Sauvegarde..." while saving, "Sauvegardé" plus the label when something was saved, and is blank otherwise. |
| `TiptapEditor.SavedJustNow` | src/fichiers/tiptap_editor_main.ts:136-245 | From 1 s to 60 s after a timed save, the indicator reads "Sauvegardé à l'instant". |
| `TiptapEditor.WordsShown` | src/fichiers/tiptap_editor_main.ts:257 | The word count shown, 0 when the counter is unavailable. |
| `TiptapEditor.ReadingTimeShown` | src/fichiers/tiptap_editor_main.ts:260 | The reading time shown is the least number of whole minutes covering the words at 200 per minute. |
| `TiptapEditor.EditorSession.constructor` | src/fichiers/tiptap_editor_main.ts:46-147 | The mounted component is in the state `NewSession` gives. |
| `TiptapEditor.EditorSession.RunEffect` | src/fichiers/tiptap_editor_main.ts:132-147 | Updates the fields as `Effect` does. |
| `TiptapEditor.EditorSession.DocChanged` | src/fichiers/tiptap_editor_main.ts:147 | Updates the fields as `Step` does for a document change. |
| `TiptapEditor.EditorSession.PropsChanged` | src/fichiers/tiptap_editor_main.ts:147 | Updates the fields as `Step` does for new props. |
| `TiptapEditor.EditorSession.Elapse` | src/fichiers/tiptap_editor_main.ts:135-143 | A loop over due timers updates the fields as `Settle` does. |
| `TiptapEditor.EditorSession.RunAutosave` | src/fichiers/tiptap_editor_main.ts:136-142 | Updates the fields as `FireAutosave` does. |
| `TiptapEditor.EditorSession.RunReset` | src/fichiers/tiptap_editor_main.ts:142 | Updates the fields as `FireReset` does. |
| `TiptapEditor.EditorSession.SaveNow` | src/fichiers/tiptap_editor_main.ts:266-271 | Updates the fields as `Step` does for the button. |
| `TiptapEditor.EditorSession.Unmount` | src/fichiers/tiptap_editor_main.ts:146 | Updates the fields as `Step` does for teardown. |

## Left out

- Unicode steps of `generateSlug`:
  - `toLowerCase`, `normalize('NFD')` and the removal of combining accents (src/lib/utils.ts:64-66) are not modelled. `Utils.GenerateSlug` starts from text already lower-cased and stripped of accents.
  - `Text.ToLower` folds ASCII letters only.
- String lengths count characters, not UTF-16 code units.
- `formatNumber`, `formatDate` and `toLocaleTimeString` use locale formatting from the host. `TiptapEditor.FormatLastSaved` returns `ClockTime(savedAt)` instead of the clock string.
- `formatFileSize` is floating point.
- Trigger volumes are opaque reals, and `Math.round(volume * 100)` is not modelled.
- `parseInt`/`parseFloat` of the panel's inputs are not modelled, and neither is the `NaN` they can give. `TriggerAmbiance.ApplyEdit` receives the parsed value.
- Durations are whole seconds. `Math.floor` of a fractional `seconds % 60` is not modelled.
- `cn`, `generateId` and `delay` are left out: they rely on class-merging libraries, on randomness and on promises.
- `handleInsertMedia` and `handleInsertTrigger` are left out: file inputs, object URLs and the clock.
- `loadChapter`, `handleSave` and `handleUpdate` are left out: network I/O and logging.
- The toolbar, the layout, the Tailwind configuration and the Prisma client are not part of this model.
- All JSX rendering and styling is left out. So are icons and colours by media type, the "Invisible" badge, and the `showSettings` toggle of the trigger view.
- Tiptap's default mapping of the six trigger attributes without their own `renderHTML`/`parseHTML` (mediaId, action, the two fades, loop, volume) is not modelled. Tiptap renders each under its own name and parses it back with type coercion. `TriggerAmbiance.ParseNode` returns only the three mapped attributes, and the model states nothing about the HTML round trip of the other six. The same holds for the audio block's title, duration and mediaId.
- `mergeAttributes` is modelled for plain values and `class` concatenation only. Its merging of `style` is not modelled.
- `play()` returns a promise, and its rejection is not modelled.
- `TriggerAmbiance.MediaLabel`: `new URL(...)` parsing, and its exception on an invalid URL, are a parameter `pathname`.
- `TiptapEditor.TimedSaveIndicator`: states that `isSaving` is off 1000 ms after a timed save. It does not state that `isSaving` stays on throughout those 1000 ms. With an `autoSaveDelay` below 1000 ms, the reset queued by an earlier save can turn it off sooner.
- `WordCount.SplitOnSpaces`: its own contract only bounds the number of pieces. `WordCount.SplitCountsSpaceRuns` and `WordCount.WordsInCountsWords` count the pieces. The model does not state what text each piece holds.
- The editor's own `onUpdate` callback, the placeholder and the extension configuration are not modelled. Neither are undo history and `CharacterCount`'s word counting; `TiptapEditor.WordsShown` receives that count.

## Findings

| source | as written | input that shows it | evidently intended | confidence | as-written member | corrected member |
|---|---|---|---|---|---|---|
| src/lib/utils.ts:60 | The comment documents "Les Chroniques d'Amneskar" → "les-chroniques-d-amneskar". The code deletes the apostrophe along with the other characters outside `a-z`, `0-9`, whitespace and `-` (line 67), so the words around it are joined. | "d'a" gives "da" | The apostrophe separates words like whitespace: "d'a" gives "d-a" | not executed | `Utils.ApostropheDropped` | `Utils.GenerateSlugAsDocumented`, with `Utils.ApostropheSeparatesWords` |
