/**
 * The editor component of `src/fichiers/tiptap_editor_main.ts`: its autosave coordinator, its
 * manual save button, its save indicator with `formatLastSaved`, and the reading time it shows.
 *
 * The component is a state machine driven by events: document changes, new props, time passing,
 * a click on the save button, and teardown. Time is integer milliseconds. The document type `D`
 * is whatever `editor.getJSON()` returns. The `onSave` prop is an identity token, so that a new
 * callback can be told from the old one, as React's dependency comparison does.
 */
module TiptapEditor {
  import opened Wrappers
  import opened Text
  import opened Timers
  import Utils

  /** The default of the `autoSaveDelay` prop, in milliseconds. */
  const DefaultAutoSaveDelay: int := 30000

  /** How long the "Sauvegarde..." indicator stays on after a timed save, in milliseconds. */
  const SavingIndicatorTime: nat := 1000

  /** The props the autosave effect depends on; `onSave` is `None` when the prop is not passed. */
  datatype Props = Props(autoSave: bool, autoSaveDelay: int, onSave: Option<nat>)

  /** The props as the component reads them when only `onSave` is passed. */
  function DefaultProps(onSave: Option<nat>): (p: Props)
    ensures p.autoSave && p.autoSaveDelay == 30000 && p.onSave == onSave
  {
    Props(true, DefaultAutoSaveDelay, onSave)
  }

  /** A pending `setTimeout`: when it falls due and its creation rank, which orders timers due together. */
  datatype Timer = Timer(due: int, id: nat)

  /** `a` runs before `b`: it falls due earlier, or at the same time and was created first. */
  predicate Before(a: Timer, b: Timer) {
    a.due < b.due || (a.due == b.due && a.id < b.id)
  }

  datatype SaveKind = Timed | Manual

  /** One call of `onSave`: which callback, the document it received, and when. */
  datatype SaveCall<D> = SaveCall(callback: nat, doc: D, at: int, kind: SaveKind)

  /**
   * The component's state at time `now`:
   * - `editor`: the document of the editor, `None` until `useEditor` has created it;
   * - `mounted`: false once the component is torn down;
   * - `autosave`: the pending autosave timer, and `armedAt` the time the effect last ran;
   * - `resets`: the pending timers that clear `isSaving` one second after a save;
   * - `nextId`: the creation rank the next timer gets;
   * - `isSaving`, `lastSaved`: the two state variables;
   * - `calls`: every call of `onSave` so far.
   */
  datatype Session<D> = Session(
    now: int,
    editor: Option<D>,
    props: Props,
    mounted: bool,
    autosave: Option<Timer>,
    armedAt: int,
    resets: seq<Timer>,
    nextId: nat,
    isSaving: bool,
    lastSaved: Option<int>,
    calls: seq<SaveCall<D>>)

  /** The guard of the effect: autosave is on, the editor exists and `onSave` is passed. */
  predicate Enabled<D>(s: Session<D>) {
    s.props.autoSave && s.editor.Some? && s.props.onSave.Some?
  }

  /**
   * What holds of the reset timers: none is overdue, each falls due within a second from now,
   * they are pending in the order they will run, and the indicator is on only while one is pending.
   */
  predicate ResetsOk<D>(s: Session<D>) {
    && (forall i :: 0 <= i < |s.resets| ==>
          s.now <= s.resets[i].due <= s.now + SavingIndicatorTime && s.resets[i].id < s.nextId)
    && (forall i, j :: 0 <= i < j < |s.resets| ==> Before(s.resets[i], s.resets[j]))
    && (s.isSaving ==> s.resets != [])
    && s.armedAt <= s.now
  }

  /**
   * What holds of the autosave timer: it is pending only while the component is mounted and the
   * effect's guard holds, and it falls due one `autoSaveDelay` after the effect last ran.
   */
  predicate TimerOk<D>(s: Session<D>) {
    s.autosave.Some? ==>
      && s.mounted && Enabled(s)
      && s.autosave.value.due == s.armedAt + Delay(s.props.autoSaveDelay)
      && s.now <= s.autosave.value.due
      && s.autosave.value.id < s.nextId
  }

  /** The invariant every reachable state keeps. */
  predicate Inv<D>(s: Session<D>) {
    TimerOk(s) && ResetsOk(s)
  }

  /**
   * The autosave `useEffect`: the previous run's cleanup clears the pending timer, then a new
   * timer is armed, with a fresh creation rank, if and only if the guard holds.
   */
  function Effect<D>(s: Session<D>): (r: Session<D>)
    requires ResetsOk(s) && s.mounted
    ensures Inv(r)
    ensures r.autosave.Some? <==> Enabled(s)
    ensures r.autosave.Some? ==> r.autosave.value == Timer(s.now + Delay(s.props.autoSaveDelay), s.nextId)
    ensures r.autosave.Some? && s.autosave.Some? && TimerOk(s) ==> r.autosave.value.id != s.autosave.value.id
    ensures r.(autosave := s.autosave, armedAt := s.armedAt, nextId := s.nextId) == s
  {
    var cleared := s.(autosave := None, armedAt := s.now);
    if Enabled(cleared) then
      cleared.(autosave := Some(Timer(s.now + Delay(s.props.autoSaveDelay), s.nextId)), nextId := s.nextId + 1)
    else cleared
  }

  /** The component as first rendered and its effect first run. */
  function NewSession<D>(props: Props, editor: Option<D>, now: int): (s: Session<D>)
    ensures Inv(s) && s.mounted && s.now == now && s.editor == editor && s.props == props
    ensures !s.isSaving && s.lastSaved.None? && s.calls == [] && s.resets == []
    ensures s.autosave.Some? <==> Enabled(s)
  {
    Effect(Session(now, editor, props, true, None, now, [], 0, false, None, []))
  }

  /**
   * The autosave timer runs: `isSaving` is set, `onSave` receives the document as it is now,
   * `lastSaved` is set to the current time without waiting for `onSave`, and a reset timer is
   * armed one second ahead.
   */
  function FireAutosave<D>(s: Session<D>): (r: Session<D>)
    requires Inv(s) && s.autosave.Some?
    requires s.resets == [] || Before(s.autosave.value, s.resets[0])
    ensures Inv(r)
    ensures var t := s.autosave.value;
            && r.now == t.due && r.isSaving && r.lastSaved == Some(t.due) && r.autosave.None?
            && r.calls == s.calls + [SaveCall(s.props.onSave.value, s.editor.value, t.due, Timed)]
            && r.resets == s.resets + [Timer(t.due + SavingIndicatorTime, s.nextId)]
    ensures r.editor == s.editor && r.props == s.props && r.mounted == s.mounted
  {
    var t := s.autosave.value;
    var r := s.(
      now := t.due,
      isSaving := true,
      calls := s.calls + [SaveCall(s.props.onSave.value, s.editor.value, t.due, Timed)],
      lastSaved := Some(t.due),
      resets := s.resets + [Timer(t.due + SavingIndicatorTime, s.nextId)],
      nextId := s.nextId + 1,
      autosave := None);
    assert forall i :: 0 <= i < |s.resets| ==> t.due <= s.resets[i].due by {
      forall i | 0 <= i < |s.resets| ensures t.due <= s.resets[i].due {
        if i > 0 {
          assert Before(s.resets[0], s.resets[i]);
        }
      }
    }
    r
  }

  /** The oldest reset timer runs: the indicator goes off. */
  function FireReset<D>(s: Session<D>): (r: Session<D>)
    requires Inv(s) && s.resets != []
    requires s.autosave.Some? ==> s.resets[0].due <= s.autosave.value.due
    ensures Inv(r)
    ensures r.now == s.resets[0].due && !r.isSaving && r.resets == s.resets[1..]
    ensures r.(now := s.now, isSaving := s.isSaving, resets := s.resets) == s
  {
    var r := s.(now := s.resets[0].due, isSaving := false, resets := s.resets[1..]);
    assert forall i :: 0 <= i < |r.resets| ==> r.now <= r.resets[i].due by {
      forall i | 0 <= i < |r.resets| ensures r.now <= r.resets[i].due {
        assert Before(s.resets[0], s.resets[i + 1]);
      }
    }
    r
  }

  /** How many timers are pending, the autosave timer counting twice since it arms a reset. */
  function Pending<D>(s: Session<D>): nat {
    (if s.autosave.Some? then 2 else 0) + |s.resets|
  }

  /** The autosave timer falls due by `until` and runs before the oldest reset timer. */
  predicate AutosaveNext<D>(s: Session<D>, until: int) {
    && s.autosave.Some? && s.autosave.value.due <= until
    && (s.resets == [] || s.resets[0].due > until || Before(s.autosave.value, s.resets[0]))
  }

  /** The oldest reset timer falls due by `until`. */
  predicate ResetDue<D>(s: Session<D>, until: int) {
    s.resets != [] && s.resets[0].due <= until
  }

  /**
   * The event loop up to time `until`: the timers falling due by then run one by one, in order of
   * due time and then of creation, and the clock ends at `until`.
   */
  function Settle<D>(s: Session<D>, until: int): (r: Session<D>)
    requires Inv(s) && s.now <= until
    ensures Inv(r) && r.now == until
    ensures r.editor == s.editor && r.props == s.props && r.mounted == s.mounted
    ensures |r.calls| >= |s.calls| && r.calls[..|s.calls|] == s.calls
    ensures r.autosave.Some? ==> r.autosave == s.autosave && r.autosave.value.due > until
    ensures r.nextId >= s.nextId
    decreases Pending(s)
  {
    if AutosaveNext(s, until) then Settle(FireAutosave(s), until)
    else if ResetDue(s, until) then Settle(FireReset(s), until)
    else s.(now := until)
  }

  /** The events the component reacts to. */
  datatype Event<D> =
    | DocChanged(doc: D)
    | PropsChanged(props: Props)
    | Elapse(ms: nat)
    | SaveNow
    | Unmount

  /**
   * One event. A document change always re-runs the effect (every transaction yields a new
   * document); new props re-run it only when a dependency differs. The save button calls
   * `onSave` with the current document and sets `lastSaved` when the editor exists; it is shown
   * only when `onSave` is passed. Teardown runs the cleanup. A torn-down component ignores events.
   */
  function Step<D>(s: Session<D>, e: Event<D>): (r: Session<D>)
    requires Inv(s)
    ensures Inv(r)
  {
    if !s.mounted then s
    else
      match e
      case DocChanged(d) => Effect(s.(editor := Some(d)))
      case PropsChanged(p) => if p == s.props then s else Effect(s.(props := p))
      case Elapse(ms) => Settle(s, s.now + ms)
      case SaveNow =>
        if s.props.onSave.Some? && s.editor.Some?
        then s.(calls := s.calls + [SaveCall(s.props.onSave.value, s.editor.value, s.now, Manual)], lastSaved := Some(s.now))
        else s
      case Unmount => s.(mounted := false, autosave := None)
  }

  function Run<D>(s: Session<D>, events: seq<Event<D>>): (r: Session<D>)
    requires Inv(s)
    ensures Inv(r)
    decreases |events|
  {
    if events == [] then s else Run(Step(s, events[0]), events[1..])
  }

  // ---------------------------------------------------------------------------------------------
  // Properties of the autosave coordinator

  /**
   * A document change, or a change of a dependency, clears the pending timer and arms at most one
   * new one: only when autosave is on and `onSave` is passed, due one delay from now, with a rank no
   * earlier timer had.
   */
  lemma ChangeRearms<D>(s: Session<D>, e: Event<D>)
    requires Inv(s) && s.mounted
    requires e.DocChanged? || (e.PropsChanged? && e.props != s.props)
    ensures var r := Step(s, e);
            && (r.autosave.Some? <==> r.props.autoSave && r.editor.Some? && r.props.onSave.Some?)
            && (r.autosave.Some? ==> r.autosave.value.due == s.now + Delay(r.props.autoSaveDelay))
            && (r.autosave.Some? && s.autosave.Some? ==> r.autosave.value.id != s.autosave.value.id)
            && (forall i :: 0 <= i < |r.resets| && r.autosave.Some? ==> r.resets[i].id != r.autosave.value.id)
            && r.calls == s.calls && r.isSaving == s.isSaving && r.lastSaved == s.lastSaved
  {
  }

  /** Props equal to the current ones change nothing. */
  lemma SamePropsNoEffect<D>(s: Session<D>)
    requires Inv(s)
    ensures Step(s, PropsChanged(s.props)) == s
  {
  }

  /** No autosave timer is pending while autosave is off, the editor is absent or `onSave` is not passed. */
  lemma NoTimerWhenDisabled<D>(s: Session<D>, events: seq<Event<D>>)
    requires Inv(s)
    ensures var r := Run(s, events);
            !r.props.autoSave || r.editor.None? || r.props.onSave.None? ==> r.autosave.None?
  {
  }

  /** Time passing before the autosave timer falls due calls nothing and leaves the timer and `lastSaved` alone. */
  lemma {:induction false} SettleBeforeDue<D>(s: Session<D>, until: int)
    requires Inv(s) && s.now <= until
    requires s.autosave.None? || until < s.autosave.value.due
    ensures var r := Settle(s, until);
            r.calls == s.calls && r.autosave == s.autosave && r.lastSaved == s.lastSaved
    decreases Pending(s)
  {
    if ResetDue(s, until) {
      SettleBeforeDue(FireReset(s), until);
    }
  }

  /**
   * Time passing up to or beyond the autosave timer's due time makes exactly one timed call of
   * `onSave`, with the document as it is when the timer runs, and records that time in `lastSaved`.
   */
  lemma {:induction false} SettleFiresOnce<D>(s: Session<D>, until: int)
    requires Inv(s) && s.now <= until
    requires s.autosave.Some? && s.autosave.value.due <= until
    ensures var r := Settle(s, until);
            && r.calls == s.calls + [SaveCall(s.props.onSave.value, s.editor.value, s.autosave.value.due, Timed)]
            && r.autosave.None? && r.lastSaved == Some(s.autosave.value.due)
    decreases Pending(s)
  {
    if AutosaveNext(s, until) {
      SettleBeforeDue(FireAutosave(s), until);
    } else {
      SettleFiresOnce(FireReset(s), until);
    }
  }

  /** Once every reset timer has fallen due and no autosave runs meanwhile, the indicator is off. */
  lemma {:induction false} IndicatorGoesOff<D>(s: Session<D>, until: int)
    requires Inv(s) && s.now <= until
    requires s.autosave.None? || until < s.autosave.value.due
    requires forall i :: 0 <= i < |s.resets| ==> s.resets[i].due <= until
    ensures !Settle(s, until).isSaving
    decreases Pending(s)
  {
    if ResetDue(s, until) {
      var r := FireReset(s);
      assert forall i :: 0 <= i < |r.resets| ==> r.resets[i].due <= until by {
        forall i | 0 <= i < |r.resets| ensures r.resets[i].due <= until {
          assert r.resets[i] == s.resets[i + 1];
        }
      }
      IndicatorGoesOff(r, until);
    }
  }

  /**
   * A timed save at `t` turns the indicator on at once; a second after `t` it is off again, and
   * `lastSaved` is `t`, provided the document did not change meanwhile.
   */
  lemma TimedSaveIndicator<D>(s: Session<D>, until: int)
    requires Inv(s) && s.now <= until
    requires s.autosave.Some? && s.autosave.value.due + SavingIndicatorTime <= until
    requires s.resets == [] || Before(s.autosave.value, s.resets[0])
    ensures FireAutosave(s).isSaving
    ensures var r := Settle(s, until);
            !r.isSaving && r.lastSaved == Some(s.autosave.value.due) && r.autosave.None?
  {
    var f := FireAutosave(s);
    assert AutosaveNext(s, until);
    SettleBeforeDue(f, until);
    IndicatorGoesOff(f, until);
  }

  /** The manual save: one call with the current document at the current time; the timer and the indicator are untouched. */
  lemma SaveNowContract<D>(s: Session<D>)
    requires Inv(s)
    ensures var r := Step(s, SaveNow);
            && (s.mounted && s.props.onSave.Some? && s.editor.Some? ==>
                  r.calls == s.calls + [SaveCall(s.props.onSave.value, s.editor.value, s.now, Manual)]
                  && r.lastSaved == Some(s.now))
            && (!(s.mounted && s.props.onSave.Some? && s.editor.Some?) ==> r == s)
            && r.autosave == s.autosave && r.resets == s.resets && r.isSaving == s.isSaving && r.now == s.now
  {
  }

  /** `Run` over two event sequences is `Run` over the first, then over the second. */
  lemma {:induction false} RunAppend<D>(s: Session<D>, a: seq<Event<D>>, b: seq<Event<D>>)
    requires Inv(s)
    ensures Run(s, a + b) == Run(Run(s, a), b)
    decreases |a|
  {
    if a != [] {
      assert (a + b)[0] == a[0];
      assert (a + b)[1..] == a[1..] + b;
      RunAppend(Step(s, a[0]), a[1..], b);
    } else {
      assert a + b == b;
    }
  }

  /** `Run` over two events is two steps. */
  lemma RunTwo<D>(s: Session<D>, a: Event<D>, b: Event<D>)
    requires Inv(s)
    ensures Run(s, [a, b]) == Step(Step(s, a), b)
  {
    var s1 := Step(s, a);
    assert [a, b][1..] == [b];
    assert Run(s, [a, b]) == Run(s1, [b]);
    assert [b][1..] == [];
    assert Run(s1, [b]) == Run(Step(s1, b), []);
  }

  /** Once torn down, the component does nothing more: in particular `onSave` is never called again. */
  lemma {:induction false} UnmountIsFinal<D>(s: Session<D>, events: seq<Event<D>>)
    requires Inv(s)
    ensures var u := Step(s, Unmount);
            Run(u, events) == u && !u.mounted && u.autosave.None? && u.calls == s.calls
    decreases |events|
  {
    var u := Step(s, Unmount);
    if events != [] {
      assert Step(u, events[0]) == u;
      UnmountIsFinal(s, events[1..]);
    }
  }

  /**
   * With autosave off and no change of props, no timed save happens, whatever the edits, clicks
   * and pauses: every call added is a manual one.
   */
  lemma {:induction false} DisabledNeverAutosaves<D>(s: Session<D>, events: seq<Event<D>>)
    requires Inv(s) && !s.props.autoSave
    requires forall i :: 0 <= i < |events| ==> !events[i].PropsChanged?
    ensures var r := Run(s, events);
            && |r.calls| >= |s.calls| && r.calls[..|s.calls|] == s.calls
            && forall i :: |s.calls| <= i < |r.calls| ==> r.calls[i].kind == Manual
    decreases |events|
  {
    if events != [] {
      var s' := Step(s, events[0]);
      DisabledStep(s, events[0]);
      DisabledNeverAutosaves(s', events[1..]);
      var r := Run(s', events[1..]);
      assert Run(s, events) == r;
      assert r.calls[..|s.calls|] == r.calls[..|s'.calls|][..|s.calls|];
    }
  }

  /** One event other than new props, with autosave off: at most one manual call is added. */
  lemma DisabledStep<D>(s: Session<D>, e: Event<D>)
    requires Inv(s) && !s.props.autoSave && !e.PropsChanged?
    ensures var s' := Step(s, e);
            Inv(s') && !s'.props.autoSave
            && (s'.calls == s.calls
                || (s'.calls[..|s.calls|] == s.calls && |s'.calls| == |s.calls| + 1
                    && s'.calls[|s.calls|].kind == Manual))
  {
    if s.mounted && e.Elapse? {
      SettleBeforeDue(s, s.now + e.ms);
    }
  }

  /** Editing: each document change is followed by a pause. */
  function Typing<D>(docs: seq<D>, pauses: seq<nat>): seq<Event<D>>
    requires |docs| == |pauses|
  {
    if docs == [] then [] else [DocChanged(docs[0]), Elapse(pauses[0])] + Typing(docs[1..], pauses[1..])
  }

  function Sum(xs: seq<nat>): nat {
    if xs == [] then 0 else xs[0] + Sum(xs[1..])
  }

  /**
   * A burst of edits, each pause shorter than the delay, makes no save; a last pause of at least
   * the delay then makes exactly one timed save, of the last document, one delay after the last
   * edit.
   */
  lemma {:induction false} EditsCoalesce<D>(s: Session<D>, docs: seq<D>, pauses: seq<nat>)
    requires Inv(s) && s.mounted && s.props.autoSave && s.props.onSave.Some?
    requires |docs| == |pauses| >= 1
    requires forall i :: 0 <= i < |pauses| - 1 ==> pauses[i] < Delay(s.props.autoSaveDelay)
    requires pauses[|pauses| - 1] >= Delay(s.props.autoSaveDelay)
    ensures var r := Run(s, Typing(docs, pauses));
            && r.calls == s.calls + [SaveCall(s.props.onSave.value, docs[|docs| - 1],
                                              s.now + Sum(pauses[..|pauses| - 1]) + Delay(s.props.autoSaveDelay), Timed)]
            && r.autosave.None?
    decreases |docs|, 1
  {
    RunTyping(s, docs, pauses);
    if |docs| == 1 {
      EditThenWait(s, docs[0], pauses[0]);
      assert Typing(docs[1..], pauses[1..]) == [];
      assert pauses[..0] == [];
    } else {
      EditThenPause(s, docs[0], pauses[0]);
      CoalesceRest(s, Step(Step(s, DocChanged(docs[0])), Elapse(pauses[0])), docs, pauses);
    }
  }

  /** The inductive step of `EditsCoalesce`: after the first edit and its short pause, the rest of the burst saves once. */
  lemma {:induction false} CoalesceRest<D>(s: Session<D>, s2: Session<D>, docs: seq<D>, pauses: seq<nat>)
    requires Inv(s) && s.mounted && s.props.autoSave && s.props.onSave.Some?
    requires |docs| == |pauses| >= 2
    requires forall i :: 0 <= i < |pauses| - 1 ==> pauses[i] < Delay(s.props.autoSaveDelay)
    requires pauses[|pauses| - 1] >= Delay(s.props.autoSaveDelay)
    requires Inv(s2) && s2.mounted && s2.props == s.props && s2.calls == s.calls && s2.now == s.now + pauses[0]
    ensures var r := Run(s2, Typing(docs[1..], pauses[1..]));
            && r.calls == s.calls + [SaveCall(s.props.onSave.value, docs[|docs| - 1],
                                              s.now + Sum(pauses[..|pauses| - 1]) + Delay(s.props.autoSaveDelay), Timed)]
            && r.autosave.None?
    decreases |docs|, 0
  {
    var rest := pauses[1..];
    assert forall i :: 0 <= i < |rest| - 1 ==> rest[i] < Delay(s2.props.autoSaveDelay) by {
      forall i | 0 <= i < |rest| - 1 ensures rest[i] < Delay(s2.props.autoSaveDelay) {
        assert rest[i] == pauses[i + 1];
      }
    }
    EditsCoalesce(s2, docs[1..], rest);
    assert pauses[..|pauses| - 1] == [pauses[0]] + rest[..|rest| - 1];
    SumCons(pauses[0], rest[..|rest| - 1]);
    assert docs[1..][|docs[1..]| - 1] == docs[|docs| - 1];
  }

  /** Running an edit session is running its first edit and pause, then the rest. */
  lemma RunTyping<D>(s: Session<D>, docs: seq<D>, pauses: seq<nat>)
    requires Inv(s) && |docs| == |pauses| >= 1
    ensures Run(s, Typing(docs, pauses))
            == Run(Step(Step(s, DocChanged(docs[0])), Elapse(pauses[0])), Typing(docs[1..], pauses[1..]))
  {
    var first: seq<Event<D>> := [DocChanged(docs[0]), Elapse(pauses[0])];
    assert Typing(docs, pauses) == first + Typing(docs[1..], pauses[1..]);
    RunAppend(s, first, Typing(docs[1..], pauses[1..]));
    RunTwo(s, DocChanged(docs[0]), Elapse(pauses[0]));
  }

  lemma SumCons(x: nat, xs: seq<nat>)
    ensures Sum([x] + xs) == x + Sum(xs)
  {
    assert ([x] + xs)[1..] == xs;
  }

  /** An edit and a pause shorter than the delay: no save, and the timer armed by the edit still pending. */
  lemma EditThenPause<D>(s: Session<D>, d: D, p: nat)
    requires Inv(s) && s.mounted && s.props.autoSave && s.props.onSave.Some?
    requires p < Delay(s.props.autoSaveDelay)
    ensures var r := Step(Step(s, DocChanged(d)), Elapse(p));
            && r.mounted && r.props == s.props && r.calls == s.calls && r.now == s.now + p
            && r.autosave.Some? && r.autosave.value.due == s.now + Delay(s.props.autoSaveDelay)
  {
    var s1 := Step(s, DocChanged(d));
    assert s1.autosave.Some? && s1.autosave.value.due == s.now + Delay(s.props.autoSaveDelay);
    SettleBeforeDue(s1, s1.now + p);
  }

  /** An edit and a pause of at least the delay: exactly one timed save, of that edit's document. */
  lemma EditThenWait<D>(s: Session<D>, d: D, p: nat)
    requires Inv(s) && s.mounted && s.props.autoSave && s.props.onSave.Some?
    requires p >= Delay(s.props.autoSaveDelay)
    ensures var r := Step(Step(s, DocChanged(d)), Elapse(p));
            && r.calls == s.calls + [SaveCall(s.props.onSave.value, d, s.now + Delay(s.props.autoSaveDelay), Timed)]
            && r.autosave.None?
  {
    var s1 := Step(s, DocChanged(d));
    assert s1.autosave.Some? && s1.autosave.value.due == s.now + Delay(s.props.autoSaveDelay);
    SettleFiresOnce(s1, s1.now + p);
  }

  /** An edit followed by teardown 200 ms later, with a 500 ms delay, never saves. */
  lemma TeardownCancelsSave<D>(s: Session<D>, doc: D)
    requires Inv(s) && s.mounted && s.props == Props(true, 500, Some(7))
    ensures Run(s, [DocChanged(doc), Elapse(200), Unmount, Elapse(1000)]).calls == s.calls
  {
    var edit: seq<Event<D>> := [DocChanged(doc), Elapse(200)];
    var after: seq<Event<D>> := [Unmount, Elapse(1000)];
    EditThenPause(s, doc, 200);
    var s2 := Step(Step(s, DocChanged(doc)), Elapse(200));
    RunTwo(s, DocChanged(doc), Elapse(200));
    UnmountIsFinal(s2, [Elapse(1000)]);
    RunTwo(s2, Unmount, Elapse(1000));
    RunAppend(s, edit, after);
    assert [DocChanged(doc), Elapse(200), Unmount, Elapse(1000)] == edit + after;
  }

  // ---------------------------------------------------------------------------------------------
  // The save indicator and the metadata line

  /** What `formatLastSaved` returns: a text, or the clock time `toLocaleTimeString` would show. */
  datatype SavedLabel = Plain(text: string) | ClockTime(savedAt: int)

  /**
   * `formatLastSaved()` at time `nowMs`: "" when nothing was saved, then by whole seconds elapsed
   * "à l'instant" below a minute, "il y a N min" below an hour, and the clock time beyond.
   */
  function FormatLastSaved(lastSaved: Option<int>, nowMs: int): (shown: SavedLabel)
    ensures lastSaved.None? ==> shown == Plain("")
    ensures lastSaved.Some? && ElapsedSeconds(nowMs, lastSaved.value) < 3600 ==>
              shown == Plain(Utils.FormatRelativeTime(ElapsedSeconds(nowMs, lastSaved.value)))
    ensures lastSaved.Some? && ElapsedSeconds(nowMs, lastSaved.value) >= 3600 ==>
              shown == ClockTime(lastSaved.value)
  {
    match lastSaved
    case None => Plain("")
    case Some(saved) =>
      var diff := ElapsedSeconds(nowMs, saved);
      if diff < 60 then Plain(Utils.JustNowText)
      else if diff < 3600 then Plain("il y a " + IntToString(diff / 60) + " min")
      else ClockTime(saved)
  }

  /** Below an hour the label counts whole minutes: "à l'instant" under one, "il y a N min" with N from 1 to 59. */
  lemma LastSavedMinutes(saved: int, nowMs: int)
    ensures var diff := ElapsedSeconds(nowMs, saved);
            && (diff < 60 <==> FormatLastSaved(Some(saved), nowMs) == Plain(Utils.JustNowText))
            && (60 <= diff < 3600 ==>
                  FormatLastSaved(Some(saved), nowMs) == Plain("il y a " + IntToString(diff / 60) + " min")
                  && 1 <= diff / 60 <= 59)
  {
    var diff := ElapsedSeconds(nowMs, saved);
    if 60 <= diff < 3600 {
      assert Utils.InBucket(diff, Utils.Minute);
      Utils.RelativeTimeBuckets(diff);
    }
  }

  /** The indicator in the corner of the editor. */
  datatype Indicator = Hidden | Saving | Saved(savedLabel: SavedLabel) | Blank

  /** Hidden when autosave is off; otherwise "Sauvegarde...", then "Sauvegardé …" once something was saved. */
  function SaveIndicator<D>(s: Session<D>, nowMs: int): (shown: Indicator)
    ensures !s.props.autoSave ==> shown == Hidden
    ensures s.props.autoSave && s.isSaving ==> shown == Saving
    ensures s.props.autoSave && !s.isSaving && s.lastSaved.Some? ==> shown == Saved(FormatLastSaved(s.lastSaved, nowMs))
    ensures s.props.autoSave && !s.isSaving && s.lastSaved.None? ==> shown == Blank
  {
    if !s.props.autoSave then Hidden
    else if s.isSaving then Saving
    else if s.lastSaved.Some? then Saved(FormatLastSaved(s.lastSaved, nowMs))
    else Blank
  }

  /**
   * A second after a timed save, with no edit meanwhile, the indicator reads "Sauvegardé à
   * l'instant" until a minute has passed since the save.
   */
  lemma SavedJustNow<D>(s: Session<D>, until: int)
    requires Inv(s) && s.now <= until
    requires s.autosave.Some? && s.autosave.value.due + SavingIndicatorTime <= until < s.autosave.value.due + 60000
    requires s.resets == [] || Before(s.autosave.value, s.resets[0])
    ensures SaveIndicator(Settle(s, until), until) == Saved(Plain(Utils.JustNowText))
  {
    TimedSaveIndicator(s, until);
  }

  /** The word count the metadata line shows: `words() || 0`. */
  function WordsShown(words: Option<nat>): (n: nat)
    ensures words.Some? ==> n == words.value
    ensures words.None? ==> n == 0
  {
    words.GetOr(0)
  }

  /** The reading time the metadata line shows: whole minutes at 200 words a minute, rounded up. */
  function ReadingTimeShown(words: Option<nat>): (minutes: int)
    ensures Utils.WordsPerMinute * (minutes - 1) < WordsShown(words) <= Utils.WordsPerMinute * minutes
    ensures minutes >= 0
  {
    Utils.CalculateReadingTime(WordsShown(words))
  }

  // ---------------------------------------------------------------------------------------------
  // The component as an object

  /** The mounted component: React's state and pending timers as fields the events update in place. */
  class EditorSession<D> {
    var now: int
    var editor: Option<D>
    var props: Props
    var mounted: bool
    var autosave: Option<Timer>
    var armedAt: int
    var resets: seq<Timer>
    var nextId: nat
    var isSaving: bool
    var lastSaved: Option<int>
    var calls: seq<SaveCall<D>>

    function State(): Session<D>
      reads this
    {
      Session(now, editor, props, mounted, autosave, armedAt, resets, nextId, isSaving, lastSaved, calls)
    }

    ghost predicate Valid()
      reads this
    {
      Inv(State())
    }

    constructor (props: Props, editor: Option<D>, now: int)
      ensures Valid() && State() == NewSession(props, editor, now)
    {
      this.now := now;
      this.editor := editor;
      this.props := props;
      mounted := true;
      autosave := None;
      armedAt := now;
      resets := [];
      nextId := 0;
      isSaving := false;
      lastSaved := None;
      calls := [];
      new;
      RunEffect();
    }

    /** The effect: clear the pending timer, then arm a new one when the guard holds. */
    method RunEffect()
      requires ResetsOk(State()) && mounted
      modifies this
      ensures Valid() && State() == Effect(old(State()))
    {
      autosave := None;
      armedAt := now;
      if props.autoSave && editor.Some? && props.onSave.Some? {
        autosave := Some(Timer(now + Delay(props.autoSaveDelay), nextId));
        nextId := nextId + 1;
      }
    }

    /** `editor.state.doc` changes. */
    method DocChanged(doc: D)
      requires Valid()
      modifies this
      ensures Valid() && State() == Step(old(State()), Event.DocChanged(doc))
    {
      if !mounted {
        return;
      }
      editor := Some(doc);
      RunEffect();
    }

    /** The parent re-renders the component with `p`. */
    method PropsChanged(p: Props)
      requires Valid()
      modifies this
      ensures Valid() && State() == Step(old(State()), Event.PropsChanged(p))
    {
      if !mounted || p == props {
        return;
      }
      props := p;
      RunEffect();
    }

    /** `ms` milliseconds pass: the timers falling due run in order, then the clock moves on. */
    method Elapse(ms: nat)
      requires Valid()
      modifies this
      ensures Valid() && State() == Step(old(State()), Event.Elapse(ms))
    {
      if !mounted {
        return;
      }
      var until := now + ms;
      while AutosaveNext(State(), until) || ResetDue(State(), until)
        invariant Valid() && now <= until && mounted
        invariant Settle(State(), until) == Settle(old(State()), until)
        decreases Pending(State())
      {
        if AutosaveNext(State(), until) {
          RunAutosave();
        } else {
          RunReset();
        }
      }
      now := until;
    }

    /** The autosave timer's callback. */
    method RunAutosave()
      requires Valid() && autosave.Some?
      requires resets == [] || Before(autosave.value, resets[0])
      modifies this
      ensures State() == FireAutosave(old(State()))
    {
      var t := autosave.value;
      now := t.due;
      isSaving := true;
      calls := calls + [SaveCall(props.onSave.value, editor.value, t.due, Timed)];
      lastSaved := Some(t.due);
      resets := resets + [Timer(t.due + SavingIndicatorTime, nextId)];
      nextId := nextId + 1;
      autosave := None;
    }

    /** The oldest reset timer's callback, `setIsSaving(false)`. */
    method RunReset()
      requires Valid() && resets != []
      requires autosave.Some? ==> resets[0].due <= autosave.value.due
      modifies this
      ensures State() == FireReset(old(State()))
    {
      now := resets[0].due;
      isSaving := false;
      resets := resets[1..];
    }

    /** The "Sauvegarder maintenant" button. */
    method SaveNow()
      requires Valid()
      modifies this
      ensures Valid() && State() == Step(old(State()), Event.SaveNow)
    {
      if mounted && props.onSave.Some? && editor.Some? {
        calls := calls + [SaveCall(props.onSave.value, editor.value, now, Manual)];
        lastSaved := Some(now);
      }
    }

    /** Teardown: the effect's cleanup clears the pending autosave timer. */
    method Unmount()
      requires Valid()
      modifies this
      ensures Valid() && State() == Step(old(State()), Event.Unmount)
    {
      if !mounted {
        return;
      }
      mounted := false;
      autosave := None;
    }
  }
}
