/** The snippet manager: a match buffer fed by key events, the dispatch of a
    matched snippet by its type, and the effects on the clipboard and the
    keyboard. `KeyDown` and the functions before it state what one event does
    to a `Session`; the class `SnippetsManager` performs it step by step. */
module Manager {
  import opened JsValues
  import opened KeyDecoder
  import opened MatchBuffer
  import opened SnippetMatcher
  import opened Evaluators
  import opened Injection

  /** What `String(error)` gives for the call of the undefined `this._evaluate`. */
  const EvaluateMissingError := "TypeError: this._evaluate is not a function"
  const ErrorTitle := "QWError"

  /** What running a Lua snippet's code with a matched text does, as foreign outcomes. */
  type LuaHost = (string, string) -> LuaRun

  /** What one event reads from outside: the keycode table and the current
      layout, the stored snippets and buffer length, and the foreign matchers
      and interpreter. */
  datatype Env = Env(
    chars: CharTable,
    keymap: KeyMap,
    snippets: seq<Snippet>,
    bufferLength: int,
    regex: RegexMatcher,
    lua: LuaHost)

  datatype Session = Session(buffer: string, shouldMatch: bool, world: World)

  function BackspaceTaps(n: nat): (r: seq<Action>)
    ensures |r| == n && forall i :: 0 <= i < n ==> r[i] == BackspaceTap
  {
    seq(n, _ => BackspaceTap)
  }

  /** `n` calls of `keyTap('backspace')`. */
  function Backspaces(w: World, n: nat): (r: World)
    ensures r == w.(log := w.log + BackspaceTaps(n))
    decreases n
  {
    if n == 0 then w else Perform(Backspaces(w, n - 1), BackspaceTap)
  }

  /** `_handlePlainTextSnippet`: the stored value is the expansion, unchanged. */
  function HandlePlainTextSnippet(value: string): (r: string)
    ensures r == value
  {
    value
  }

  /** `_handleJavascriptSnippet`: the call of `this._evaluate` throws, so the
      code is never evaluated; the error goes to a notification when they are
      supported (and the expansion is empty), otherwise into the expansion. */
  function JavascriptSnippetEffect(w: World): (r: (World, Value))
    ensures r.0.clipboard == w.clipboard && r.0.timers == w.timers && r.0.now == w.now
    ensures r.0.coercesNonString == w.coercesNonString && r.0.notificationsSupported == w.notificationsSupported
    ensures r.1 == Str(if w.notificationsSupported then "" else "QWError " + EvaluateMissingError)
    ensures r.0.log == w.log + (if w.notificationsSupported then [ShowNotification(ErrorTitle, EvaluateMissingError)] else [])
  {
    if !w.notificationsSupported then (w, Str("QWError " + EvaluateMissingError))
    else (Perform(w, ShowNotification(ErrorTitle, EvaluateMissingError)), Str(""))
  }

  /** The text `_handleLuaSnippet` writes for a settled evaluation. */
  function LuaClipboardText(p: Settlement): (r: string)
    requires !p.Pending?
    ensures p.Fulfilled? && p.value.Str? ==> r == p.value.s
    ensures p.Rejected? ==> |r| >= 9 && r[..9] == "QWError: " && r[9..] == ToJsString(p.reason)
  {
    if p.Fulfilled? then ToJsString(p.value) else "QWError: " + ToJsString(p.reason)
  }

  /** A Lua snippet that raises nothing writes what it printed while loading,
      followed by what `qw` printed. */
  lemma LuaClipboardShowsPrints(run: LuaRun)
    requires run.load.error.None? && run.call.error.None?
    ensures LuaClipboardText(LuaOutcome(run)) == Output(run.load.prints) + Output(run.call.prints)
  {
    OutputConcat(run.load.prints, run.call.prints);
  }

  /** `_handleLuaSnippet`: its own read, write, paste and restore; it returns `undefined`. */
  function LuaSnippetEffect(w: World, run: LuaRun): (r: World)
    ensures r.clipboard == LuaClipboardText(LuaOutcome(run))
    ensures r.log == w.log + [ReadClipboard, WriteClipboard(LuaClipboardText(LuaOutcome(run)))]
    ensures r.now == w.now && |r.timers| == |w.timers| + 2
    ensures r.coercesNonString == w.coercesNonString && r.notificationsSupported == w.notificationsSupported
  {
    var clipboardContent := w.clipboard;
    var w1 := Perform(ReadText(w), WriteClipboard(LuaClipboardText(LuaOutcome(run))));
    SetTimeout(SetTimeout(w1, PasteDelay, Paste), RestoreDelay, WriteClipboard(clipboardContent))
  }

  /** What a hit does: erase the typed trigger, then hand the snippet's result to `replace`. */
  function Expand(w: World, s: Snippet, matched: string, env: Env): (r: World)
    ensures r.now == w.now
    ensures r.coercesNonString == w.coercesNonString && r.notificationsSupported == w.notificationsSupported
    ensures |w.log| + |matched| < |r.log| && r.log[..|w.log|] == w.log
    ensures |w.timers| <= |r.timers| <= |w.timers| + 4
  {
    var w1 := Backspaces(w, |matched|);
    if s.kind == "js" then
      var (w2, v) := JavascriptSnippetEffect(w1);
      Replace(w2, v)
    else if s.kind == "lua" then
      Replace(LuaSnippetEffect(w1, env.lua(s.value, matched)), Undefined)
    else
      Replace(w1, Str(HandlePlainTextSnippet(s.value)))
  }

  /** `_replaceSnippetIfMatchFound` on a buffer: nothing without a hit. A
      pattern that throws rejects the returned promise, which nobody awaits;
      nothing of it reaches the world. */
  function MatchAndExpand(buffer: string, w: World, env: Env): (r: World)
    ensures !FirstMatch(env.snippets, buffer, env.regex).Hit? ==> r == w
    ensures r.now == w.now
    ensures r.coercesNonString == w.coercesNonString && r.notificationsSupported == w.notificationsSupported
    ensures |w.log| <= |r.log| && r.log[..|w.log|] == w.log
    ensures FirstMatch(env.snippets, buffer, env.regex).Hit? ==>
      |w.log| + |FirstMatch(env.snippets, buffer, env.regex).matched| < |r.log|
  {
    match FirstMatch(env.snippets, buffer, env.regex)
    case Hit(index, matched) => Expand(w, env.snippets[index], matched, env)
    case _ => w
  }

  /** A malformed regex key in the first stored snippet disables every
      snippet: whatever is typed, nothing is expanded. */
  lemma MalformedFirstKeyDisablesAll(buffer: string, w: World, env: Env)
    requires |env.snippets| > 0 && Throws(env.snippets[0], buffer, env.regex)
    ensures MatchAndExpand(buffer, w, env) == w
  {
  }

  /** The event is an ordinary key that types `c`. */
  predicate TypesCharacter(env: Env, ev: KeyEvent, c: string) {
    !ShouldResetBuffer(env.chars, ev) && !IsBackspace(env.chars, ev.keycode)
      && EventToUnicode(env.chars, env.keymap, ev) == Some(c)
  }

  /** `_onKeyDown`: the first applicable of disabled, reset key, backspace and
      typed character. */
  function KeyDown(st: Session, ev: KeyEvent, env: Env): (r: Session)
    ensures r.shouldMatch == st.shouldMatch
    ensures !st.shouldMatch ==> r == st
    ensures st.shouldMatch && ShouldResetBuffer(env.chars, ev) ==> r == st.(buffer := "")
    ensures st.shouldMatch && IsBackspace(env.chars, ev.keycode) ==>
      r.world == st.world &&
      r.buffer == (if ev.altKey || st.buffer == "" then "" else st.buffer[..|st.buffer| - 1])
    ensures (st.shouldMatch && !ShouldResetBuffer(env.chars, ev) && !IsBackspace(env.chars, ev.keycode)
             && EventToUnicode(env.chars, env.keymap, ev).None?) ==> r == st
    ensures st.shouldMatch && (ev.ctrlKey || ev.metaKey) ==> r.world == st.world
    ensures var d := EventToUnicode(env.chars, env.keymap, ev);
      st.shouldMatch && d.Some? && TypesCharacter(env, ev, d.value) ==>
        r.buffer == AddAndTrim(st.buffer, d.value, env.bufferLength) &&
        IsSuffix(r.buffer, st.buffer + d.value) &&
        r.world == MatchAndExpand(r.buffer, st.world, env)
  {
    if !st.shouldMatch then st
    else if ShouldResetBuffer(env.chars, ev) then st.(buffer := "")
    else if IsBackspace(env.chars, ev.keycode) then st.(buffer := ShortenBy(st.buffer, 1))
    else
      match EventToUnicode(env.chars, env.keymap, ev)
      case None => st
      case Some(c) =>
        var b := TrimIfNecessary(st.buffer + c, env.bufferLength);
        st.(buffer := b, world := MatchAndExpand(b, st.world, env))
  }

  /** `_onMouseClick`: a click always empties the buffer. */
  function MouseClick(st: Session): (r: Session)
    ensures r.buffer == "" && r.shouldMatch == st.shouldMatch && r.world == st.world
  {
    st.(buffer := "")
  }

  /** A sequence of key events, one after the other. */
  function KeyDowns(st: Session, evs: seq<KeyEvent>, env: Env): Session
    decreases |evs|
  {
    if evs == [] then st else KeyDowns(KeyDown(st, evs[0], env), evs[1..], env)
  }

  /** No event lets a buffer within bounds outgrow them, as long as what the
      layout types is at most one character. */
  lemma KeyDownKeepsBound(st: Session, ev: KeyEvent, env: Env)
    requires |st.buffer| <= env.bufferLength
    requires forall c :: EventToUnicode(env.chars, env.keymap, ev) == Some(c) ==> |c| <= 1
    ensures |KeyDown(st, ev, env).buffer| <= env.bufferLength
  {
  }

  /** Key events that each type one character act on the buffer as typing
      those characters does. */
  lemma {:induction false} KeyDownsType(st: Session, evs: seq<KeyEvent>, cs: seq<string>, env: Env)
    requires st.shouldMatch && |evs| == |cs|
    requires forall i :: 0 <= i < |evs| ==> TypesCharacter(env, evs[i], cs[i])
    ensures KeyDowns(st, evs, env).buffer == TypeAll(st.buffer, cs, env.bufferLength)
    decreases |evs|
  {
    if evs != [] {
      assert TypesCharacter(env, evs[0], cs[0]);
      var st' := KeyDown(st, evs[0], env);
      assert st'.buffer == AddAndTrim(st.buffer, cs[0], env.bufferLength);
      KeyDownsType(st', evs[1..], cs[1..], env);
    }
  }

  /** Typing single characters keeps in the buffer exactly the most recent
      `bufferLength` characters typed, whatever the snippets do meanwhile. */
  lemma TypedEventsKeepMostRecent(st: Session, evs: seq<KeyEvent>, cs: seq<string>, env: Env)
    requires st.shouldMatch && |st.buffer| <= env.bufferLength
    requires |evs| == |cs|
    requires forall i :: 0 <= i < |evs| ==> TypesCharacter(env, evs[i], cs[i]) && |cs[i]| == 1
    ensures KeyDowns(st, evs, env).buffer == Window(st.buffer + Concat(cs), env.bufferLength)
  {
    KeyDownsType(st, evs, cs, env);
    TypingKeepsMostRecent(st.buffer, cs, env.bufferLength);
  }

  /** A plain-text hit: the trigger is erased, the value pasted through the
      clipboard, and after 500 ms the clipboard is back to its old text. */
  lemma PlainExpansion(w: World, s: Snippet, matched: string, env: Env)
    requires s.kind != "js" && s.kind != "lua"
    ensures Expand(w, s, matched, env).log
         == w.log + BackspaceTaps(|matched|) + [ReadClipboard, WriteClipboard(s.value)]
    ensures Advance(Expand(w, s, matched, env), RestoreDelay).clipboard == w.clipboard
  {
    var w1 := Backspaces(w, |matched|);
    ReplaceRestoresClipboard(w1, Str(s.value));
  }

  /** A JavaScript hit never runs the snippet's code: whatever the code, the
      expansion is the error text (or empty, with a notification), and the
      clipboard is restored after 500 ms. */
  lemma JavascriptExpansion(w: World, s: Snippet, matched: string, env: Env)
    requires s.kind == "js"
    ensures !w.notificationsSupported ==>
      (Expand(w, s, matched, env).log
         == w.log + BackspaceTaps(|matched|) + [ReadClipboard, WriteClipboard("QWError " + EvaluateMissingError)])
    ensures w.notificationsSupported ==>
      (Expand(w, s, matched, env).log
         == w.log + BackspaceTaps(|matched|)
            + [ShowNotification(ErrorTitle, EvaluateMissingError), ReadClipboard, WriteClipboard("")])
    ensures Advance(Expand(w, s, matched, env), RestoreDelay).clipboard == w.clipboard
  {
    var w1 := Backspaces(w, |matched|);
    var (w2, v) := JavascriptSnippetEffect(w1);
    ReplaceRestoresClipboard(w2, v);
  }

  /** A timer queue that ends in what `SetTimeout(w, delay, write)` holds decides
      the clipboard after `delay`, whatever the rest of the world is. */
  lemma QueuedWriteDecides(u: World, w: World, delay: nat, text: string)
    requires u.timers == SetTimeout(w, delay, WriteClipboard(text)).timers && u.now == w.now
    ensures Advance(u, delay).clipboard == text
  {
    var t := Timer(w.now + delay, WriteClipboard(text));
    var k := InsertPosition(w.timers, t);
    InsertSplit(w.timers, t);
    assert u == u.(timers := w.timers[..k] + [t] + w.timers[k..]);
    LastDueWriteWins(u, w.timers[..k], t, w.timers[k..], w.now + delay);
  }

  /** A Lua hit: the handler writes the result (or the error text) itself and
      then `replace` receives `undefined`. When the clipboard turns that into the
      text "undefined", the result is read back as the "old" text and stays on
      the clipboard after 500 ms; when it throws, the handler's own restore of
      the old text is the last write. */
  lemma LuaExpansion(w: World, s: Snippet, matched: string, env: Env)
    requires s.kind == "lua"
    ensures var text := LuaClipboardText(LuaOutcome(env.lua(s.value, matched)));
      (w.coercesNonString ==>
         Expand(w, s, matched, env).log
           == w.log + BackspaceTaps(|matched|)
              + [ReadClipboard, WriteClipboard(text), ReadClipboard, WriteClipboard("undefined")] &&
         Advance(Expand(w, s, matched, env), RestoreDelay).clipboard == text) &&
      (!w.coercesNonString ==>
         Expand(w, s, matched, env).log
           == w.log + BackspaceTaps(|matched|) + [ReadClipboard, WriteClipboard(text), ReadClipboard] &&
         Advance(Expand(w, s, matched, env), RestoreDelay).clipboard == w.clipboard)
  {
    if w.coercesNonString {
      LuaExpansionCoercing(w, s, matched, env);
    } else {
      LuaExpansionThrowing(w, s, matched, env);
    }
  }

  lemma LuaExpansionCoercing(w: World, s: Snippet, matched: string, env: Env)
    requires s.kind == "lua" && w.coercesNonString
    ensures var text := LuaClipboardText(LuaOutcome(env.lua(s.value, matched)));
      Expand(w, s, matched, env).log
        == w.log + BackspaceTaps(|matched|)
           + [ReadClipboard, WriteClipboard(text), ReadClipboard, WriteClipboard("undefined")] &&
      Advance(Expand(w, s, matched, env), RestoreDelay).clipboard == text
  {
    var w1 := Backspaces(w, |matched|);
    var text := LuaClipboardText(LuaOutcome(env.lua(s.value, matched)));
    var w2 := LuaSnippetEffect(w1, env.lua(s.value, matched));
    assert w2.log == w1.log + [ReadClipboard, WriteClipboard(text)];
    assert w2.clipboard == text;
    assert ToJsString(Undefined) == "undefined";
    assert Expand(w, s, matched, env) == Replace(w2, Undefined);
    assert Replace(w2, Undefined).log == w2.log + [ReadClipboard, WriteClipboard("undefined")];
    ReplaceRestoresClipboard(w2, Undefined);
  }

  lemma LuaExpansionThrowing(w: World, s: Snippet, matched: string, env: Env)
    requires s.kind == "lua" && !w.coercesNonString
    ensures var text := LuaClipboardText(LuaOutcome(env.lua(s.value, matched)));
      Expand(w, s, matched, env).log
        == w.log + BackspaceTaps(|matched|) + [ReadClipboard, WriteClipboard(text), ReadClipboard] &&
      Advance(Expand(w, s, matched, env), RestoreDelay).clipboard == w.clipboard
  {
    var w1 := Backspaces(w, |matched|);
    var run := env.lua(s.value, matched);
    var w2 := LuaSnippetEffect(w1, run);
    var w4 := SetTimeout(Perform(ReadText(w1), WriteClipboard(LuaClipboardText(LuaOutcome(run)))), PasteDelay, Paste);
    assert Replace(w2, Undefined) == ReadText(w2);
    QueuedWriteDecides(ReadText(w2), w4, RestoreDelay, w.clipboard);
  }

  /** What the paste at +50 inserts for a Lua hit, with no other timer pending.
      When the clipboard turns `undefined` into text, both pastes (the
      handler's and the one of `replace(undefined)`) fire at +50 and paste the
      text "undefined", not the Lua result; when it throws, the one paste
      inserts the result. */
  lemma LuaPaste(w: World, s: Snippet, matched: string, env: Env)
    requires s.kind == "lua" && w.timers == []
    ensures var text := LuaClipboardText(LuaOutcome(env.lua(s.value, matched)));
      var e := Expand(w, s, matched, env);
      (w.coercesNonString ==>
         Advance(e, PasteDelay).clipboard == "undefined" &&
         Advance(e, PasteDelay).log == e.log + [Paste, Paste]) &&
      (!w.coercesNonString ==>
         Advance(e, PasteDelay).clipboard == text &&
         Advance(e, PasteDelay).log == e.log + [Paste])
  {
    var w2 := LuaSnippetEffect(Backspaces(w, |matched|), env.lua(s.value, matched));
    var p := Timer(w.now + PasteDelay, Paste);
    var q := Timer(w.now + RestoreDelay, WriteClipboard(w.clipboard));
    assert Insert([], p) == [p];
    assert Insert([p], q) == [p, q];
    assert w2.timers == [p, q];
    if w.coercesNonString {
      LuaPasteCoercing(w2, p, q);
    } else {
      var e := ReadText(w2);
      assert Replace(w2, Undefined) == e;
      assert RunDue(e, w.now + PasteDelay) == Perform(e.(timers := [q]), Paste);
    }
  }

  lemma LuaPasteCoercing(w2: World, p: Timer, q: Timer)
    requires w2.coercesNonString && p == Timer(w2.now + PasteDelay, Paste)
    requires q.due == w2.now + RestoreDelay && w2.timers == [p, q]
    ensures Advance(Replace(w2, Undefined), PasteDelay).clipboard == "undefined"
    ensures Advance(Replace(w2, Undefined), PasteDelay).log == Replace(w2, Undefined).log + [Paste, Paste]
  {
    var e := Replace(w2, Undefined);
    var q2 := Timer(w2.now + RestoreDelay, WriteClipboard(w2.clipboard));
    assert Insert([q], p) == [p, q];
    assert Insert([p, q], p) == [p, p, q];
    assert Insert([q], q2) == [q, q2];
    assert Insert([p, q], q2) == [p, q, q2];
    assert Insert([p, p, q], q2) == [p, p, q, q2];
    assert e.timers == [p, p, q, q2];
    var f1 := Perform(e.(timers := [p, q, q2]), Paste);
    var f2 := Perform(f1.(timers := [q, q2]), Paste);
    assert RunDue(e, w2.now + PasteDelay) == RunDue(f1, w2.now + PasteDelay);
    assert RunDue(f1, w2.now + PasteDelay) == f2;
    assert e.clipboard == "undefined";
  }

  /** The Lua handler keeps the timer queue in due order. */
  lemma LuaSnippetEffectKeepsOrder(w: World, run: LuaRun)
    requires Sorted(w.timers)
    ensures Sorted(LuaSnippetEffect(w, run).timers)
  {
    var w3 := Perform(ReadText(w), WriteClipboard(LuaClipboardText(LuaOutcome(run))));
    SetTimeoutKeepsOrder(w3, PasteDelay, Paste);
    SetTimeoutKeepsOrder(SetTimeout(w3, PasteDelay, Paste), RestoreDelay, WriteClipboard(w.clipboard));
  }

  /** Expanding a snippet keeps the timer queue in due order. */
  lemma ExpandKeepsOrder(w: World, s: Snippet, matched: string, env: Env)
    requires Sorted(w.timers)
    ensures Sorted(Expand(w, s, matched, env).timers)
  {
    var w1 := Backspaces(w, |matched|);
    if s.kind == "js" {
      var (w2, v) := JavascriptSnippetEffect(w1);
      ReplaceKeepsOrder(w2, v);
    } else if s.kind == "lua" {
      LuaSnippetEffectKeepsOrder(w1, env.lua(s.value, matched));
      ReplaceKeepsOrder(LuaSnippetEffect(w1, env.lua(s.value, matched)), Undefined);
    } else {
      ReplaceKeepsOrder(w1, Str(s.value));
    }
  }

  /** No key event breaks the due order of the timer queue. */
  lemma KeyDownKeepsOrder(st: Session, ev: KeyEvent, env: Env)
    requires Sorted(st.world.timers)
    ensures Sorted(KeyDown(st, ev, env).world.timers)
  {
    var d := EventToUnicode(env.chars, env.keymap, ev);
    if st.shouldMatch && !ShouldResetBuffer(env.chars, ev) && !IsBackspace(env.chars, ev.keycode) && d.Some? {
      var b := TrimIfNecessary(st.buffer + d.value, env.bufferLength);
      var hit := FirstMatch(env.snippets, b, env.regex);
      if hit.Hit? {
        ExpandKeepsOrder(st.world, env.snippets[hit.index], hit.matched, env);
      }
    }
  }

  /** Expanding any snippet sends exactly `|matched|` backspaces first and none
      after them. */
  lemma ExpandErasesTrigger(w: World, s: Snippet, m: string, env: Env)
    ensures var log := Expand(w, s, m, env).log;
      |log| >= |w.log| + |m| &&
      log[..|w.log| + |m|] == w.log + BackspaceTaps(|m|) &&
      BackspaceTap !in log[|w.log| + |m|..]
  {
    var tail: seq<Action>;
    if s.kind == "js" {
      JavascriptExpansion(w, s, m, env);
      tail := if w.notificationsSupported
        then [ShowNotification(ErrorTitle, EvaluateMissingError), ReadClipboard, WriteClipboard("")]
        else [ReadClipboard, WriteClipboard("QWError " + EvaluateMissingError)];
    } else if s.kind == "lua" {
      LuaExpansion(w, s, m, env);
      var text := LuaClipboardText(LuaOutcome(env.lua(s.value, m)));
      tail := if w.coercesNonString
        then [ReadClipboard, WriteClipboard(text), ReadClipboard, WriteClipboard("undefined")]
        else [ReadClipboard, WriteClipboard(text), ReadClipboard];
    } else {
      PlainExpansion(w, s, m, env);
      tail := [ReadClipboard, WriteClipboard(s.value)];
    }
    var log := Expand(w, s, m, env).log;
    assert log == (w.log + BackspaceTaps(|m|)) + tail;
    assert log[..|w.log| + |m|] == w.log + BackspaceTaps(|m|);
    assert log[|w.log| + |m|..] == tail;
  }

  /** On a hit exactly as many backspaces as the matched text has characters
      are sent, before anything else and never again; without a hit nothing
      happens. */
  lemma MatchErasesTrigger(buffer: string, w: World, env: Env)
    ensures !FirstMatch(env.snippets, buffer, env.regex).Hit? ==> MatchAndExpand(buffer, w, env) == w
    ensures var hit := FirstMatch(env.snippets, buffer, env.regex);
      var log := MatchAndExpand(buffer, w, env).log;
      hit.Hit? ==>
        |log| >= |w.log| + |hit.matched| &&
        log[..|w.log| + |hit.matched|] == w.log + BackspaceTaps(|hit.matched|) &&
        BackspaceTap !in log[|w.log| + |hit.matched|..]
  {
    var hit := FirstMatch(env.snippets, buffer, env.regex);
    if hit.Hit? {
      ExpandErasesTrigger(w, env.snippets[hit.index], hit.matched, env);
    }
  }

  /** A typed character that completes the non-empty literal key of the first
      stored snippet, a plain one, erases the key with as many backspaces as it
      has characters and pastes the snippet's value. */
  lemma LiteralTriggerExpands(st: Session, ev: KeyEvent, c: string, env: Env)
    requires st.shouldMatch && TypesCharacter(env, ev, c)
    requires |env.snippets| > 0
    requires var s := env.snippets[0];
      !s.regex && s.key != "" && s.kind != "js" && s.kind != "lua" &&
      EndsWith(AddAndTrim(st.buffer, c, env.bufferLength), s.key)
    ensures KeyDown(st, ev, env).world.log
         == st.world.log + BackspaceTaps(|env.snippets[0].key|)
            + [ReadClipboard, WriteClipboard(env.snippets[0].value)]
  {
    var b := AddAndTrim(st.buffer, c, env.bufferLength);
    FirstLiteralWins(env.snippets, b, env.regex);
    PlainExpansion(st.world, env.snippets[0], env.snippets[0].key, env);
  }

  class SnippetsManager {
    var buffer: string
    var shouldMatch: bool
    /** The clipboard, keyboard simulator, notifications and timers. */
    var world: World

    function State(): Session
      reads this
    {
      Session(buffer, shouldMatch, world)
    }

    /** The pending timers are kept in due order, as the runtime's timer queue is. */
    predicate Valid()
      reads this
    {
      Sorted(world.timers)
    }

    constructor (w: World)
      requires Sorted(w.timers)
      ensures State() == Session("", true, w)
      ensures Valid()
    {
      buffer := "";
      shouldMatch := true;
      world := w;
    }

    method ResetBuffer()
      modifies this
      ensures State() == old(State()).(buffer := "")
    {
      buffer := "";
    }

    method OnMouseClick()
      requires Valid()
      modifies this
      ensures State() == MouseClick(old(State()))
      ensures Valid()
    {
      ResetBuffer();
    }

    method AddCharToBuffer(character: string)
      modifies this
      ensures State() == old(State()).(buffer := old(buffer) + character)
    {
      buffer := buffer + character;
    }

    method ShortenBufferBy(amount: int)
      modifies this
      ensures State() == old(State()).(buffer := ShortenBy(old(buffer), amount))
    {
      buffer := Substring(buffer, 0, |buffer| - amount);
    }

    method ShortenBufferIfNecessary(bufferLength: int)
      modifies this
      ensures State() == old(State()).(buffer := TrimIfNecessary(old(buffer), bufferLength))
    {
      if |buffer| > bufferLength {
        buffer := Substring(buffer, 1, |buffer|);
      }
    }

    method Replace(value: Value)
      requires Valid()
      modifies this
      ensures State() == old(State()).(world := Injection.Replace(old(world), value))
      ensures Valid()
    {
      ReplaceKeepsOrder(world, value);
      var clipboardContent := world.clipboard;
      world := ReadText(world);
      var written := WriteText(world, value);
      if written.None? {
        // writeText threw: the timers are never set
        return;
      }
      world := written.value;
      world := SetTimeout(world, PasteDelay, Paste);
      world := SetTimeout(world, RestoreDelay, WriteClipboard(clipboardContent));
    }

    method HandleLuaSnippet(matchedString: string, code: string, lua: LuaHost) returns (v: Value)
      requires Valid()
      modifies this
      ensures v == Undefined
      ensures State() == old(State()).(world := LuaSnippetEffect(old(world), lua(code, matchedString)))
      ensures Valid()
    {
      LuaSnippetEffectKeepsOrder(world, lua(code, matchedString));
      var clipboardContent := world.clipboard;
      world := ReadText(world);
      var p := EvaluateLua(lua(code, matchedString));
      if p.Fulfilled? {
        var written := WriteText(world, p.value);
        world := written.value;
      } else {
        world := Perform(world, WriteClipboard("QWError: " + ToJsString(p.reason)));
      }
      world := SetTimeout(world, PasteDelay, Paste);
      world := SetTimeout(world, RestoreDelay, WriteClipboard(clipboardContent));
      v := Undefined;
    }

    method HandleJavascriptSnippet(matchedString: string, code: string) returns (v: Value)
      requires Valid()
      modifies this
      ensures State() == old(State()).(world := JavascriptSnippetEffect(old(world)).0)
      ensures v == JavascriptSnippetEffect(old(world)).1
      ensures Valid()
    {
      // this._evaluate is not defined: the call throws before the code is looked at
      var error := EvaluateMissingError;
      if !world.notificationsSupported {
        v := Str("QWError " + error);
        return;
      }
      world := Perform(world, ShowNotification(ErrorTitle, error));
      v := Str("");
    }

    method ReplaceSnippetIfMatchFound(env: Env)
      requires Valid()
      modifies this
      ensures State() == old(State()).(world := MatchAndExpand(old(buffer), old(world), env))
      ensures Valid()
    {
      var hit := FirstMatch(env.snippets, buffer, env.regex);
      if hit.Hit? {
        ExpandKeepsOrder(world, env.snippets[hit.index], hit.matched, env);
      }
      var snippets := env.snippets;
      var i := 0;
      while i < |snippets|
        invariant 0 <= i <= |snippets|
        invariant State() == old(State())
        invariant FirstMatchFrom(snippets, buffer, env.regex, i) == FirstMatch(snippets, buffer, env.regex)
      {
        var snippet := snippets[i];
        if Throws(snippet, buffer, env.regex) {
          // new RegExp throws: the async function rejects and the loop ends
          return;
        }
        var matchedString := MatchedString(snippet, buffer, env.regex);
        if matchedString.Some? {
          var m := matchedString.value;
          var before := world;
          for k := 0 to |m|
            invariant State() == old(State()).(world := Backspaces(before, k))
          {
            world := Perform(world, BackspaceTap);
          }
          if snippet.kind == "js" {
            var v := HandleJavascriptSnippet(m, snippet.value);
            Replace(v);
          } else if snippet.kind == "lua" {
            var v := HandleLuaSnippet(m, snippet.value, env.lua);
            Replace(v);
          } else {
            Replace(Str(HandlePlainTextSnippet(snippet.value)));
          }
          return;
        }
        i := i + 1;
      }
    }

    method OnKeyDown(ev: KeyEvent, env: Env)
      requires Valid()
      modifies this
      ensures State() == KeyDown(old(State()), ev, env)
      ensures Valid()
    {
      KeyDownKeepsOrder(State(), ev, env);
      if !shouldMatch {
        return;
      }
      if ShouldResetBuffer(env.chars, ev) {
        ResetBuffer();
        return;
      }
      if IsBackspace(env.chars, ev.keycode) {
        ShortenBufferBy(1);
        return;
      }
      var character := EventToUnicode(env.chars, env.keymap, ev);
      if character.Some? {
        AddCharToBuffer(character.value);
        ShortenBufferIfNecessary(env.bufferLength);
        ReplaceSnippetIfMatchFound(env);
      }
    }
  }
}
