/** The external collaborators the snippet engine acts on, as one value: the
    system clipboard, the record of keystrokes and notifications sent out, and
    the pending timer callbacks with a virtual clock. `Replace` is the
    clipboard-mediated paste: read the clipboard, write the expansion, paste
    after 50 ms and write the old text back after 500 ms. */
module Injection {
  import opened JsValues

  const PasteDelay := 50
  const RestoreDelay := 500

  /** An effect on the outside world, in the order it happens. */
  datatype Action =
    | ReadClipboard
    | WriteClipboard(text: string)
    | KeyTap(key: string, modifier: string)
    | ShowNotification(title: string, body: string)

  const Paste := KeyTap("v", "command")
  const BackspaceTap := KeyTap("backspace", "")

  /** A callback set with `setTimeout`, due at an absolute virtual time. */
  datatype Timer = Timer(due: nat, action: Action)

  /** `coercesNonString` says what the clipboard's `writeText` does with a value
      that is not a string: store its `String(v)` text (true) or throw (false).
      `notificationsSupported` is `Notification.isSupported()`. */
  datatype World = World(
    clipboard: string,
    log: seq<Action>,
    now: nat,
    timers: seq<Timer>,
    coercesNonString: bool,
    notificationsSupported: bool)

  /** Carrying out an action; only a clipboard write changes the clipboard. */
  function Perform(w: World, a: Action): (r: World)
    ensures r.log == w.log + [a] && r.timers == w.timers && r.now == w.now
    ensures r.coercesNonString == w.coercesNonString && r.notificationsSupported == w.notificationsSupported
    ensures r.clipboard == if a.WriteClipboard? then a.text else w.clipboard
  {
    match a
    case WriteClipboard(text) => w.(clipboard := text, log := w.log + [a])
    case _ => w.(log := w.log + [a])
  }

  function ReadText(w: World): World {
    Perform(w, ReadClipboard)
  }

  /** `clipboard.writeText(v)`: `None` when the call throws. */
  function WriteText(w: World, v: Value): (r: Option<World>)
    ensures v.Str? ==> r == Some(Perform(w, WriteClipboard(v.s)))
    ensures !v.Str? && w.coercesNonString ==> r == Some(Perform(w, WriteClipboard(ToJsString(v))))
    ensures r.None? <==> !v.Str? && !w.coercesNonString
  {
    if v.Str? then Some(Perform(w, WriteClipboard(v.s)))
    else if w.coercesNonString then Some(Perform(w, WriteClipboard(ToJsString(v))))
    else None
  }

  /** Timers run in order of due time, callbacks due at the same time in the
      order they were set: a new timer goes after every timer due no later. */
  function Insert(ts: seq<Timer>, t: Timer): seq<Timer>
    decreases |ts|
  {
    if ts == [] then [t]
    else if ts[0].due <= t.due then [ts[0]] + Insert(ts[1..], t)
    else [t] + ts
  }

  /** Where `Insert` places the new timer: after the leading timers due no later. */
  function InsertPosition(ts: seq<Timer>, t: Timer): (k: nat)
    ensures k <= |ts|
    decreases |ts|
  {
    if ts == [] || ts[0].due > t.due then 0 else InsertPosition(ts[1..], t) + 1
  }

  /** `Insert` puts the new timer at `InsertPosition`, after every timer due no
      later and before the first one due later. */
  lemma InsertSplit(ts: seq<Timer>, t: Timer)
    ensures Insert(ts, t) == ts[..InsertPosition(ts, t)] + [t] + ts[InsertPosition(ts, t)..]
    ensures forall i :: 0 <= i < InsertPosition(ts, t) ==> ts[i].due <= t.due
    ensures InsertPosition(ts, t) < |ts| ==> ts[InsertPosition(ts, t)].due > t.due
  {
    InsertShape(ts, t);
    InsertPositionDue(ts, t);
  }

  lemma {:induction false} InsertShape(ts: seq<Timer>, t: Timer)
    ensures Insert(ts, t) == ts[..InsertPosition(ts, t)] + [t] + ts[InsertPosition(ts, t)..]
    decreases |ts|
  {
    if ts != [] && ts[0].due <= t.due {
      var k := InsertPosition(ts, t);
      var rest := ts[1..];
      InsertShape(rest, t);
      assert Insert(ts, t) == [ts[0]] + (rest[..k - 1] + [t] + rest[k - 1..]);
      assert ts[..k] == [ts[0]] + rest[..k - 1];
      assert ts[k..] == rest[k - 1..];
    }
  }

  lemma {:induction false} InsertPositionDue(ts: seq<Timer>, t: Timer)
    ensures forall i :: 0 <= i < InsertPosition(ts, t) ==> ts[i].due <= t.due
    ensures InsertPosition(ts, t) < |ts| ==> ts[InsertPosition(ts, t)].due > t.due
    decreases |ts|
  {
    if ts != [] && ts[0].due <= t.due {
      var rest := ts[1..];
      InsertPositionDue(rest, t);
      forall i | 0 <= i < InsertPosition(ts, t) ensures ts[i].due <= t.due {
        if i > 0 { assert ts[i] == rest[i - 1]; }
      }
    }
  }

  predicate Sorted(ts: seq<Timer>) {
    forall i, j :: 0 <= i < j < |ts| ==> ts[i].due <= ts[j].due
  }

  /** The timer queue stays ordered by due time and loses nothing. */
  lemma {:induction false} InsertKeepsOrder(ts: seq<Timer>, t: Timer)
    requires Sorted(ts)
    ensures Sorted(Insert(ts, t))
    ensures multiset(Insert(ts, t)) == multiset(ts) + multiset{t}
    decreases |ts|
  {
    if ts == [] {
    } else if ts[0].due <= t.due {
      var rest := ts[1..];
      assert ts == [ts[0]] + rest;
      InsertKeepsOrder(rest, t);
      var r' := Insert(rest, t);
      forall k | 0 <= k < |r'| ensures ts[0].due <= r'[k].due {
        assert r'[k] in multiset(r');
        if r'[k] != t {
          assert r'[k] in rest;
          var m :| 0 <= m < |rest| && rest[m] == r'[k];
          assert rest[m] == ts[m + 1];
        }
      }
      DueAtLeastHead(ts[0], r');
    } else {
      DueAtLeastHead(t, ts);
    }
  }

  /** A timer due no later than every timer of a sorted queue can be put in front. */
  lemma DueAtLeastHead(h: Timer, ts: seq<Timer>)
    requires Sorted(ts)
    requires forall k :: 0 <= k < |ts| ==> h.due <= ts[k].due
    ensures Sorted([h] + ts)
  {
    var r := [h] + ts;
    forall i, j | 0 <= i < j < |r| ensures r[i].due <= r[j].due {
      assert r[j] == ts[j - 1];
      if i > 0 { assert r[i] == ts[i - 1]; }
    }
  }

  /** `Insert` adds exactly the new timer, in any queue. */
  lemma InsertAdds(ts: seq<Timer>, t: Timer)
    ensures multiset(Insert(ts, t)) == multiset(ts) + multiset{t}
  {
    var k := InsertPosition(ts, t);
    InsertShape(ts, t);
    assert ts == ts[..k] + ts[k..];
  }

  lemma InsertLength(ts: seq<Timer>, t: Timer)
    ensures |Insert(ts, t)| == |ts| + 1
  {
  }

  /** `setTimeout(callback, delay)`: the callback is queued `delay` ms from
      now, and nothing happens yet. */
  function SetTimeout(w: World, delay: nat, a: Action): (r: World)
    ensures r.clipboard == w.clipboard && r.log == w.log && r.now == w.now
    ensures r.coercesNonString == w.coercesNonString && r.notificationsSupported == w.notificationsSupported
    ensures |r.timers| == |w.timers| + 1
  {
    InsertLength(w.timers, Timer(w.now + delay, a));
    w.(timers := Insert(w.timers, Timer(w.now + delay, a)))
  }

  /** Fires, in queue order, every pending timer due at `time` or earlier. */
  function RunDue(w: World, time: nat): World
    decreases |w.timers|
  {
    if w.timers != [] && w.timers[0].due <= time then
      RunDue(Perform(w.(timers := w.timers[1..]), w.timers[0].action), time)
    else w
  }

  /** Setting a timer keeps a queue in due order and adds exactly that timer. */
  lemma SetTimeoutKeepsOrder(w: World, delay: nat, a: Action)
    requires Sorted(w.timers)
    ensures Sorted(SetTimeout(w, delay, a).timers)
    ensures multiset(SetTimeout(w, delay, a).timers) == multiset(w.timers) + multiset{Timer(w.now + delay, a)}
  {
    InsertKeepsOrder(w.timers, Timer(w.now + delay, a));
  }

  /** Running the due timers fires a prefix of the queue, each timer of it due
      by `time`, and stops at the first timer that is not due; the clock does
      not move. */
  lemma {:induction false} RunDuePrefix(w: World, time: nat)
    ensures var r := RunDue(w, time);
      |r.timers| <= |w.timers| &&
      r.timers == w.timers[|w.timers| - |r.timers|..] &&
      (forall i :: 0 <= i < |w.timers| - |r.timers| ==> w.timers[i].due <= time) &&
      (r.timers != [] ==> r.timers[0].due > time) &&
      r.now == w.now
    decreases |w.timers|
  {
    if w.timers != [] && w.timers[0].due <= time {
      var w' := Perform(w.(timers := w.timers[1..]), w.timers[0].action);
      assert w'.timers == w.timers[1..];
      RunDuePrefix(w', time);
      var r := RunDue(w', time);
      assert w.timers[1..][|w.timers[1..]| - |r.timers|..] == w.timers[|w.timers| - |r.timers|..];
      forall i | 0 <= i < |w.timers| - |r.timers| ensures w.timers[i].due <= time {
        if i > 0 { assert w.timers[i] == w.timers[1..][i - 1]; }
      }
    }
  }

  /** On a queue in due order, running the due timers fires exactly the timers
      due by `time`: none that is due stays behind, and the rest stays in order. */
  lemma RunDueFiresAllDue(w: World, time: nat)
    requires Sorted(w.timers)
    ensures var r := RunDue(w, time);
      (forall i :: 0 <= i < |w.timers| - |r.timers| ==> w.timers[i].due <= time) &&
      (forall i :: 0 <= i < |r.timers| ==> r.timers[i].due > time) &&
      Sorted(r.timers)
  {
    RunDuePrefix(w, time);
    var r := RunDue(w, time);
    var k := |w.timers| - |r.timers|;
    forall i | 0 <= i < |r.timers| ensures r.timers[i].due > time && r.timers[i] == w.timers[k + i] {
      assert r.timers[i] == w.timers[k + i];
      assert r.timers[0] == w.timers[k];
    }
  }

  /** Lets `ms` milliseconds pass with no other event. */
  function Advance(w: World, ms: nat): World {
    RunDue(w, w.now + ms).(now := w.now + ms)
  }

  /** `replace(value)`: read the clipboard, write the value, then set the paste
      and the restore of the text read. When `writeText` throws, nothing after
      it happens. */
  function Replace(w: World, v: Value): (r: World)
    ensures r.now == w.now
    ensures r.coercesNonString == w.coercesNonString && r.notificationsSupported == w.notificationsSupported
    ensures v.Str? || w.coercesNonString ==>
      var text := if v.Str? then v.s else ToJsString(v);
      r.clipboard == text && r.log == w.log + [ReadClipboard, WriteClipboard(text)] &&
      |r.timers| == |w.timers| + 2
    ensures !v.Str? && !w.coercesNonString ==>
      r.clipboard == w.clipboard && r.log == w.log + [ReadClipboard] && r.timers == w.timers
  {
    var clipboardContent := w.clipboard;
    var w1 := ReadText(w);
    match WriteText(w1, v)
    case None => w1
    case Some(w2) =>
      var text := if v.Str? then v.s else ToJsString(v);
      assert w2 == w1.(clipboard := text, log := w1.log + [WriteClipboard(text)]);
      assert w1.log + [WriteClipboard(text)] == w.log + [ReadClipboard, WriteClipboard(text)];
      SetTimeout(SetTimeout(w2, PasteDelay, Paste), RestoreDelay, WriteClipboard(clipboardContent))
  }

  /** What `replace` queues when the write succeeds: the paste at +50 and the
      write-back of the text read at +500, and nothing else. */
  lemma ReplaceQueues(w: World, v: Value)
    requires v.Str? || w.coercesNonString
    ensures multiset(Replace(w, v).timers) == multiset(w.timers)
      + multiset{Timer(w.now + PasteDelay, Paste), Timer(w.now + RestoreDelay, WriteClipboard(w.clipboard))}
  {
    var w2 := WriteText(ReadText(w), v).value;
    var t1 := Timer(w.now + PasteDelay, Paste);
    var t2 := Timer(w.now + RestoreDelay, WriteClipboard(w.clipboard));
    var w3 := SetTimeout(w2, PasteDelay, Paste);
    assert w2.timers == w.timers && w2.now == w.now;
    assert Replace(w, v).timers == Insert(Insert(w.timers, t1), t2);
    InsertTwice(w.timers, t1, t2);
  }

  lemma InsertTwice(ts: seq<Timer>, t1: Timer, t2: Timer)
    ensures multiset(Insert(Insert(ts, t1), t2)) == multiset(ts) + multiset{t1, t2}
  {
    InsertAdds(ts, t1);
    InsertAdds(Insert(ts, t1), t2);
    assert multiset{t1, t2} == multiset{t1} + multiset{t2};
  }

  /** `replace` keeps the timer queue in due order. */
  lemma ReplaceKeepsOrder(w: World, v: Value)
    requires Sorted(w.timers)
    ensures Sorted(Replace(w, v).timers)
  {
    var w1 := ReadText(w);
    if WriteText(w1, v).Some? {
      var w2 := WriteText(w1, v).value;
      SetTimeoutKeepsOrder(w2, PasteDelay, Paste);
      SetTimeoutKeepsOrder(SetTimeout(w2, PasteDelay, Paste), RestoreDelay, WriteClipboard(w.clipboard));
    }
  }

  /** Letting time pass keeps the queue in due order, and what is left of it
      is due later than the new time. */
  lemma AdvanceKeepsOrder(w: World, ms: nat)
    requires Sorted(w.timers)
    ensures Sorted(Advance(w, ms).timers)
    ensures Advance(w, ms).now == w.now + ms
    ensures forall i :: 0 <= i < |Advance(w, ms).timers| ==> Advance(w, ms).timers[i].due > w.now + ms
  {
    RunDuePrefix(w, w.now + ms);
    RunDueFiresAllDue(w, w.now + ms);
  }

  /** If the clipboard write `t` is due no later than `time` and every timer
      after it is due later, then after running the due timers the clipboard
      holds what `t` writes, whatever fired before it. */
  lemma {:induction false} LastDueWriteWins(w: World, before: seq<Timer>, t: Timer, after: seq<Timer>, time: nat)
    requires t.action.WriteClipboard? && t.due <= time
    requires forall i :: 0 <= i < |before| ==> before[i].due <= time
    requires after != [] ==> after[0].due > time
    ensures RunDue(w.(timers := before + [t] + after), time).clipboard == t.action.text
    ensures RunDue(w.(timers := before + [t] + after), time).timers == after
    decreases |before|
  {
    var ts := before + [t] + after;
    if before == [] {
      assert ts == [t] + after;
      assert ts[1..] == after;
    } else {
      assert ts[0] == before[0];
      assert ts[1..] == before[1..] + [t] + after;
      LastDueWriteWins(Perform(w.(timers := ts[1..]), ts[0].action), before[1..], t, after, time);
    }
  }

  /** A clipboard write set with `SetTimeout(w, delay, …)` decides the clipboard
      once `delay` milliseconds have passed, whatever else was pending. */
  lemma SetTimeoutWriteDecides(w: World, delay: nat, text: string)
    ensures Advance(SetTimeout(w, delay, WriteClipboard(text)), delay).clipboard == text
  {
    var t := Timer(w.now + delay, WriteClipboard(text));
    var k := InsertPosition(w.timers, t);
    InsertSplit(w.timers, t);
    var w' := SetTimeout(w, delay, WriteClipboard(text));
    assert w' == w'.(timers := w.timers[..k] + [t] + w.timers[k..]);
    LastDueWriteWins(w', w.timers[..k], t, w.timers[k..], w.now + delay);
  }

  /** Once both timers of `replace` have run, the clipboard holds again what it
      held before the call, even with other timers pending. */
  lemma ReplaceRestoresClipboard(w: World, v: Value)
    requires v.Str? || w.coercesNonString
    ensures Advance(Replace(w, v), RestoreDelay).clipboard == w.clipboard
  {
    var w2 := WriteText(ReadText(w), v).value;
    SetTimeoutWriteDecides(SetTimeout(w2, PasteDelay, Paste), RestoreDelay, w.clipboard);
  }

  /** The whole protocol with nothing else pending: the read comes before the
      write; until the 50 ms mark the clipboard holds the value; the paste
      chord is sent at 50 ms and the old text written back at 500 ms. */
  lemma ReplaceTimeline(w: World, s: string)
    requires w.timers == []
    ensures Replace(w, Str(s)).log == w.log + [ReadClipboard, WriteClipboard(s)]
    ensures Advance(Replace(w, Str(s)), PasteDelay - 1).clipboard == s
    ensures Advance(Replace(w, Str(s)), PasteDelay - 1).log == w.log + [ReadClipboard, WriteClipboard(s)]
    ensures Advance(Replace(w, Str(s)), PasteDelay).clipboard == s
    ensures Advance(Replace(w, Str(s)), PasteDelay).log == w.log + [ReadClipboard, WriteClipboard(s), Paste]
    ensures Advance(Replace(w, Str(s)), RestoreDelay).clipboard == w.clipboard
    ensures Advance(Replace(w, Str(s)), RestoreDelay).log
         == w.log + [ReadClipboard, WriteClipboard(s), Paste, WriteClipboard(w.clipboard)]
  {
    var t1 := Timer(w.now + PasteDelay, Paste);
    var t2 := Timer(w.now + RestoreDelay, WriteClipboard(w.clipboard));
    assert Insert([], t1) == [t1];
    assert [t1][1..] == [];
    assert Insert([t1], t2) == [t1, t2];
    var r := Replace(w, Str(s));
    assert r.timers == [t1, t2];
    assert r.log == w.log + [ReadClipboard, WriteClipboard(s)];
    var f1 := Perform(r.(timers := [t2]), Paste);
    assert RunDue(r, w.now + PasteDelay) == f1;
    assert RunDue(r, w.now + PasteDelay - 1) == r;
    assert RunDue(r, w.now + RestoreDelay) == RunDue(f1, w.now + RestoreDelay);
    assert RunDue(f1, w.now + RestoreDelay) == Perform(f1.(timers := []), WriteClipboard(w.clipboard));
  }
}
