/** What raiseAsync leaves in the heap of the computations that it interrupts, and how entering it resumes them
    (rts/RaiseAsync.c, and stg_AP_STACK in rts/Apply.cmm). */
module Freezing {
  import opened Options
  import opened Stacks

  datatype Closure =
    | ApStack(fun: Word, payload: seq<Word>)
    | ApStackNoUpd(fun: Word, payload: seq<Word>)
    | AtomicallyThunk(code: Word)
    | Ind(target: Word)
    | Thunk(id: nat)

  type Closures = map<nat, Closure>

  // ----- Thawing -----

  /** Entering an AP_STACK: it is blackholed, an update frame for it and its payload are pushed, and its function is
      entered next; the variant without update only pushes. */
  ghost function Enter(h: Closures, c: Word, stack: seq<Word>): Option<(Closures, Word, seq<Word>)> {
    if !(c.Ptr? && c.addr in h) then None else
    match h[c.addr]
    case ApStack(fun, payload) => Some((h - {c.addr}, fun, payload + ([Ret(Update), c] + stack)))
    case ApStackNoUpd(fun, payload) => Some((h, fun, payload + stack))
    case _ => None
  }

  /** What is entered, and on what stack, after `n` such steps. */
  ghost function Thaw(h: Closures, c: Word, stack: seq<Word>, n: nat): Option<(Word, seq<Word>)>
    decreases n
  {
    if n == 0 then Some((c, stack)) else
    match Enter(h, c, stack)
    case None => None
    case Some((h', c', stack')) => Thaw(h', c', stack', n - 1)
  }

  ghost predicate Within(h: Closures, k: Closures) {
    forall a | a in h :: a in k && k[a] == h[a]
  }

  /** What lies below on the stack stays there. */
  lemma {:induction false} ThawUnder(h: Closures, c: Word, s: seq<Word>, n: nat, t: seq<Word>)
    requires Thaw(h, c, s, n).Some?
    ensures Thaw(h, c, s + t, n) == (var (c', s') := Thaw(h, c, s, n).value; Some((c', s' + t)))
    decreases n
  {
    if n > 0 {
      var (h1, c1, s1) := Enter(h, c, s).value;
      EnterUnder(h, c, s, t);
      ThawUnder(h1, c1, s1, n - 1, t);
    }
  }

  lemma EnterUnder(h: Closures, c: Word, s: seq<Word>, t: seq<Word>)
    requires Enter(h, c, s).Some?
    ensures Enter(h, c, s + t) == (var (h', c', s') := Enter(h, c, s).value; Some((h', c', s' + t)))
  {
    if h[c.addr].ApStack? {
      assert [Ret(Update), c] + (s + t) == ([Ret(Update), c] + s) + t;
      assert h[c.addr].payload + ([Ret(Update), c] + (s + t)) == (h[c.addr].payload + ([Ret(Update), c] + s)) + t;
    } else {
      assert h[c.addr].payload + (s + t) == (h[c.addr].payload + s) + t;
    }
  }

  /** Other closures do not matter. */
  lemma {:induction false} ThawWithin(h: Closures, k: Closures, c: Word, s: seq<Word>, n: nat)
    requires Within(h, k) && Thaw(h, c, s, n).Some?
    ensures Thaw(k, c, s, n) == Thaw(h, c, s, n)
    decreases n
  {
    if n > 0 {
      var (h1, c1, s1) := Enter(h, c, s).value;
      var (k1, c2, s2) := Enter(k, c, s).value;
      ThawWithin(h1, k1, c1, s1, n - 1);
    }
  }

  // ----- Frames with other updatees -----

  /** Where the update frames are. */
  ghost function Updates(ws: seq<Word>, base: nat): seq<nat>
    decreases |ws|
  {
    if !HeadFrame(ws) then []
    else (if ws[0].info == Update then [base] else []) + Updates(ws[SizeOf(ws[0].info)..], base + SizeOf(ws[0].info))
  }

  /** The same frames, but the update frames update `aps` instead. */
  ghost function Rethread(ws: seq<Word>, aps: seq<nat>): seq<Word>
    decreases |ws|
  {
    if !HeadFrame(ws) then ws
    else if ws[0].info == Update && aps != [] then [ws[0], Ptr(aps[0])] + Rethread(ws[2..], aps[1..])
    else ws[..SizeOf(ws[0].info)] + Rethread(ws[SizeOf(ws[0].info)..], aps)
  }

  predicate OneFrame(b: seq<Word>) {
    HeadFrame(b) && |b| == SizeOf(b[0].info) && !Terminal(b[0].info)
  }

  lemma {:induction false} UpdatesSnoc(a: seq<Word>, b: seq<Word>, base: nat)
    requires Frames(a) && OneFrame(b)
    ensures Updates(a + b, base) == Updates(a, base) + if b[0].info == Update then [base + |a|] else []
    decreases |a|
  {
    hide SizeOf, Frames, Updates, OneFrame;
    if a == [] {
      UpdatesSingle(b, base);
      assert a + b == b;
    } else {
      FramesStep(a);
      HeadOfAppend(a, b);
      UpdatesStep(a, base);
      UpdatesStep(a + b, base);
      UpdatesSnoc(a[SizeOf(a[0].info)..], b, base + SizeOf(a[0].info));
    }
  }

  lemma UpdatesSingle(b: seq<Word>, base: nat)
    requires OneFrame(b)
    ensures Updates([], base) == [] && Updates(b, base) == if b[0].info == Update then [base] else []
  {
    assert b[SizeOf(b[0].info)..] == [];
  }

  lemma UpdatesStep(ws: seq<Word>, base: nat)
    requires HeadFrame(ws)
    ensures var n := SizeOf(ws[0].info);
            Updates(ws, base) == (if ws[0].info == Update then [base] else []) + Updates(ws[n..], base + n)
  {
  }

  lemma {:induction false} RethreadSnoc(a: seq<Word>, b: seq<Word>, aps: seq<nat>, more: seq<nat>, base: nat)
    requires Frames(a) && OneFrame(b) && |aps| == |Updates(a, base)| && |more| == if b[0].info == Update then 1 else 0
    ensures Rethread(a + b, aps + more) == Rethread(a, aps) + if b[0].info == Update then [Ret(Update), Ptr(more[0])]
            else b
    decreases |a|
  {
    hide Frames, SizeOf, Updates, Rethread, OneFrame, FirstThreaded, OtherAps;
    if a == [] {
      UpdatesSingle(b, base);
      RethreadSingle(b, more);
      assert a + b == b && aps + more == more;
    } else {
      FramesStep(a);
      var n := SizeOf(a[0].info);
      HeadOfAppend(a, b);
      HeadThreaded(a, b, aps, more, base);
      RethreadStep(a, aps);
      RethreadStep(a + b, aps + more);
      RethreadSnoc(a[n..], b, OtherAps(a[0], aps), more, base + n);
      var last := if more != [] then [Ret(Update), Ptr(more[0])] else b;
      Assoc(FirstThreaded(a, aps), Rethread(a[n..], OtherAps(a[0], aps)), last);
    }
  }

  lemma Assoc(a: seq<Word>, b: seq<Word>, c: seq<Word>)
    ensures a + (b + c) == (a + b) + c
  {
  }

  /** What becomes of the first frame, and what is left for the others. */
  ghost function FirstThreaded(ws: seq<Word>, aps: seq<nat>): seq<Word>
    requires HeadFrame(ws)
  {
    if ws[0].info == Update && aps != [] then [ws[0], Ptr(aps[0])] else ws[..SizeOf(ws[0].info)]
  }

  ghost function OtherAps(w: Word, aps: seq<nat>): seq<nat> {
    if w == Ret(Update) && aps != [] then aps[1..] else aps
  }

  lemma HeadThreaded(a: seq<Word>, b: seq<Word>, aps: seq<nat>, more: seq<nat>, base: nat)
    requires HeadFrame(a) && |aps| == |Updates(a, base)|
    ensures HeadFrame(a + b) && FirstThreaded(a + b, aps + more) == FirstThreaded(a, aps)
    ensures OtherAps((a + b)[0], aps + more) == OtherAps(a[0], aps) + more
    ensures |OtherAps(a[0], aps)| == |Updates(a[SizeOf(a[0].info)..], base + SizeOf(a[0].info))|
  {
    hide Updates;
    UpdatesStep(a, base);
    assert (a + b)[..SizeOf(a[0].info)] == a[..SizeOf(a[0].info)];
    if a[0].info == Update {
      assert (aps + more)[1..] == aps[1..] + more && (aps + more)[0] == aps[0];
    }
  }

  lemma RethreadSingle(b: seq<Word>, aps: seq<nat>)
    requires OneFrame(b) && |aps| == if b[0].info == Update then 1 else 0
    ensures Rethread([], []) == [] && Rethread(b, aps) == if b[0].info == Update then [Ret(Update), Ptr(aps[0])] else b
  {
    assert b[SizeOf(b[0].info)..] == [] && b[..SizeOf(b[0].info)] == b;
  }

  lemma RethreadStep(ws: seq<Word>, aps: seq<nat>)
    requires HeadFrame(ws)
    ensures Rethread(ws, aps) == FirstThreaded(ws, aps) + Rethread(ws[SizeOf(ws[0].info)..], OtherAps(ws[0], aps))
  {
  }

  // ----- What has been frozen -----

  /** The closure that is frozen first, on the frames from word `from` on; and the closure, if any, that the frame
      stop_here updates. */
  datatype Origin = Origin(from: nat, start: Word, stop: Option<Word>)

  /** The closure under an enter frame on top of the stack, or a dummy. */
  function Top(top: seq<Word>, stop: Option<Word>): Origin {
    if |top| >= 2 && top[0] == Ret(ENTER) then Origin(2, top[1], stop) else Origin(0, DUMMY_RET, stop)
  }

  /** The update frame at word `at` now has the AP_STACK `ap`: entering it takes `steps` steps to `start` on top of the
      frames from word `from` on, whose updatees are those of the records from `first` on. */
  datatype Frozen = Frozen(at: nat, ap: nat, from: nat, first: nat, start: Word, steps: nat)

  function Updatee(flat: seq<Word>, r: Frozen): Word {
    if r.at + 1 < |flat| then flat[r.at + 1] else DUMMY_RET
  }

  ghost function Ats(rs: seq<Frozen>): seq<nat> {
    if rs == [] then [] else Ats(rs[..|rs| - 1]) + [rs[|rs| - 1].at]
  }

  lemma AtsAppend(rs: seq<Frozen>, r: Frozen)
    ensures Ats(rs + [r]) == Ats(rs) + [r.at]
  {
    assert (rs + [r])[..|rs|] == rs;
  }

  ghost function Aps(rs: seq<Frozen>, i: nat, j: nat): seq<nat>
    requires j <= |rs|
    decreases j
  {
    if i >= j then [] else Aps(rs, i, j - 1) + [rs[j - 1].ap]
  }

  lemma {:induction false} ApsAppend(rs: seq<Frozen>, r: Frozen, i: nat, j: nat)
    requires j <= |rs|
    ensures Aps(rs + [r], i, j) == Aps(rs, i, j) && |Aps(rs, i, j)| == if i < j then j - i else 0
    decreases j
  {
    if i < j {
      ApsAppend(rs, r, i, j - 1);
    }
  }

  /** Where a frozen computation starts: at the top of the stack, or just below an interrupted transaction, which will
      be run again, or just below a frame that updates the closure that is being computed further down. */
  ghost predicate StartOk(flat: seq<Word>, made: Closures, o: Origin, from: nat, start: Word) {
    || (from == o.from && start == o.start)
    || (3 <= from <= |flat| && FrameAt(flat, from - 3) && flat[from - 3] == Ret(Info.Atomically) && start.Ptr?
        && start.addr in made
        && made[start.addr] == AtomicallyThunk(flat[from - 2]))
    || (2 <= from <= |flat| && FrameAt(flat, from - 2) && flat[from - 2] == Ret(Update) && flat[from - 1] == start
        && o.stop == Some(start))
  }

  ghost predicate Thaws(flat: seq<Word>, made: Closures, rs: seq<Frozen>, c: Word, acc: seq<Word>, from: nat, to: nat,
                        first: nat, last: nat, start: Word, steps: nat)
    requires from <= to <= |flat| && last <= |rs|
  {
    Thaw(made, c, acc, steps) == Some((start, Rethread(flat[from..to], Aps(rs, first, last))))
  }

  ghost predicate RecordOk(flat: seq<Word>, made: Closures, o: Origin, rs: seq<Frozen>, i: nat)
    requires i < |rs|
  {
    var r := rs[i];
    && r.first <= i && r.from <= r.at && r.at + 2 <= |flat| && FrameAt(flat, r.at) && flat[r.at] == Ret(Update)
    && StartOk(flat, made, o, r.from, r.start)
    && Thaws(flat, made, rs, Ptr(r.ap), [], r.from, r.at + 2, r.first, i + 1, r.start, r.steps)
  }

  /** How far the unwinding has got: the frames before word `pos` have gone; `cur` is the current closure, with the
      words `acc` above the next frame; `made` are the closures that it has allocated. */
  datatype Freeze = Freeze(cur: Word, acc: seq<Word>, pos: nat, from: nat, first: nat, start: Word, steps: nat,
                           records: seq<Frozen>, made: Closures)

  ghost predicate Freezes(f: Freeze, flat: seq<Word>, o: Origin) {
    && Bounds(f, flat) && RecordsOk(flat, f.made, o, f.records, |f.records|)
    && StartOk(flat, f.made, o, f.from, f.start)
    && Thaws(flat, f.made, f.records, f.cur, f.acc, f.from, f.pos, f.first, |f.records|, f.start, f.steps)
  }

  ghost predicate RecordsOk(flat: seq<Word>, made: Closures, o: Origin, rs: seq<Frozen>, n: nat)
    requires n <= |rs|
  {
    forall i | 0 <= i < n :: RecordOk(flat, made, o, rs, i)
  }

  ghost predicate Bounds(f: Freeze, flat: seq<Word>) {
    && f.from <= f.pos <= |flat| && f.first <= |f.records|
    && Frames(flat[f.from..f.pos]) && |Updates(flat[f.from..f.pos], f.from)| == |f.records| - f.first
    && Frames(flat[..f.pos]) && Updates(flat[..f.pos], 0) == Ats(f.records)
  }

  function Begin(o: Origin): Freeze {
    Freeze(o.start, [], o.from, o.from, 0, o.start, 0, [], map[])
  }

  /** A frame that only joins the others. */
  function Pass(f: Freeze, frame: seq<Word>): Freeze {
    f.(acc := f.acc + frame, pos := f.pos + |frame|)
  }

  /** The end of a chunk. */
  function AcrossChunk(f: Freeze, ap: nat): Freeze {
    f.(cur := Ptr(ap), acc := [], steps := f.steps + 1, made := f.made[ap := ApStackNoUpd(f.cur, f.acc)])
  }

  /** An update frame. */
  function PastUpdate(f: Freeze, updatee: Word, o: Origin, ap: nat): Freeze {
    var records := f.records + [Frozen(f.pos, ap, f.from, f.first, f.start, f.steps + 1)];
    var made := f.made[ap := ApStack(f.cur, f.acc)];
    if o.stop == Some(updatee) then Freeze(updatee, [], f.pos + 2, f.pos + 2, |records|, updatee, 0, records, made)
    else Freeze(Ptr(ap), [], f.pos + 2, f.from, f.first, f.start, f.steps + 1, records, made)
  }

  /** A transaction. */
  function PastAtomically(f: Freeze, code: Word, thunk: nat): Freeze {
    Freeze(Ptr(thunk), [], f.pos + 3, f.pos + 3, |f.records|, Ptr(thunk), 0, f.records,
        f.made[thunk := AtomicallyThunk(code)])
  }

  lemma BeginFreezes(flat: seq<Word>, o: Origin)
    requires o.from <= |flat| && Frames(flat[..o.from]) && Updates(flat[..o.from], 0) == []
    ensures Freezes(Begin(o), flat, o)
  {
    assert flat[o.from..o.from] == [];
    assert Rethread([], []) == [];
  }

  lemma PassFreezes(f: Freeze, flat: seq<Word>, o: Origin, n: nat)
    requires Freezes(f, flat, o) && f.pos + n <= |flat| && OneFrame(flat[f.pos..f.pos + n])
             && flat[f.pos].info != Update
    ensures Freezes(Pass(f, flat[f.pos..f.pos + n]), flat, o)
  {
    hide Thaw, Rethread, Frames, Updates, RecordsOk, StartOk, Aps, OneFrame;
    var b, aps := flat[f.pos..f.pos + n], Aps(f.records, f.first, |f.records|);
    var seg := flat[f.from..f.pos];
    ApsSize(f.records, f.first, |f.records|);
    NextSegment(flat, f.from, f.pos, n);
    NextPrefix(flat, f.pos, n);
    RethreadSnoc(seg, b, aps, [], f.from);
    assert aps + [] == aps;
    ThawUnder(f.made, f.cur, f.acc, f.steps, b);
  }

  /** One more frame. */
  lemma NextSegment(flat: seq<Word>, from: nat, pos: nat, n: nat)
    requires from <= pos && pos + n <= |flat| && Frames(flat[from..pos]) && OneFrame(flat[pos..pos + n])
    ensures flat[from..pos + n] == flat[from..pos] + flat[pos..pos + n] && Frames(flat[from..pos + n])
    ensures n > 0 && flat[pos] == flat[pos..pos + n][0] && flat[pos].Ret?
    ensures Updates(flat[from..pos + n], from) == Updates(flat[from..pos], from) + if flat[pos].info == Update
            then [pos] else []
  {
    var a, b := flat[from..pos], flat[pos..pos + n];
    assert flat[from..pos + n] == a + b;
    FramesSnoc(a, b);
    UpdatesSnoc(a, b, from);
  }

  lemma NextPrefix(flat: seq<Word>, pos: nat, n: nat)
    requires pos + n <= |flat| && Frames(flat[..pos]) && OneFrame(flat[pos..pos + n])
    ensures Frames(flat[..pos + n]) && FrameAt(flat, pos)
    ensures Updates(flat[..pos + n], 0) == Updates(flat[..pos], 0) + if flat[pos].info == Update then [pos] else []
  {
    hide Frames, Updates;
    assert flat[0..pos] == flat[..pos] && flat[0..pos + n] == flat[..pos + n];
    NextSegment(flat, 0, pos, n);
    assert flat[pos..][0] == flat[pos];
  }

  lemma ApsSize(rs: seq<Frozen>, i: nat, j: nat)
    requires i <= j <= |rs|
    ensures |Aps(rs, i, j)| == j - i
  {
    ApsAppend(rs, Frozen(0, 0, 0, 0, DUMMY_RET, 0), i, j);
  }

  /** Allocating a closure does not disturb what has been frozen. */
  lemma MadeMore(f: Freeze, flat: seq<Word>, o: Origin, a: nat, c: Closure, rs: seq<Frozen>)
    requires Freezes(f, flat, o) && a !in f.made && (rs == f.records
             || (|rs| == |f.records| + 1 && rs[..|f.records|] == f.records))
    ensures Within(f.made, f.made[a := c]) && StartOk(flat, f.made[a := c], o, f.from, f.start)
    ensures RecordsOk(flat, f.made[a := c], o, rs, |f.records|)
  {
    hide Thaw, Rethread, Frames, Updates, Aps, RecordOk, FrameAt;
    var made := f.made[a := c];
    forall i | 0 <= i < |f.records| ensures RecordOk(flat, made, o, rs, i) {
      RecordKept(flat, f.made, made, o, f.records, rs, i);
    }
  }

  lemma RecordKept(flat: seq<Word>, made: Closures, made': Closures, o: Origin, rs: seq<Frozen>, rs': seq<Frozen>,
      i: nat)
    requires Within(made, made') && i < |rs| && RecordOk(flat, made, o, rs, i)
    requires rs' == rs || (|rs'| == |rs| + 1 && rs'[..|rs|] == rs)
    ensures RecordOk(flat, made', o, rs', i)
  {
    hide Thaw, Rethread, Aps, FrameAt;
    var r := rs[i];
    assert rs'[i] == r;
    if rs' != rs {
      assert rs' == rs + [rs'[|rs|]];
      ApsAppend(rs, rs'[|rs|], r.first, i + 1);
    }
    ThawWithin(made, made', Ptr(r.ap), [], r.steps);
  }

  /** One more step thaws a new AP_STACK. */
  lemma ThawNew(made: Closures, a: nat, c: Closure, steps: nat)
    requires a !in made && (c.ApStack? || c.ApStackNoUpd?) && Thaw(made, c.fun, c.payload, steps).Some?
    ensures var (c', s') := Thaw(made, c.fun, c.payload, steps).value;
            Thaw(made[a := c], Ptr(a), [], steps + 1) == Some((c', if c.ApStack? then s' + [Ret(Update), Ptr(a)]
                else s'))
  {
    var h := made[a := c];
    assert h[a] == c;
    if c.ApStack? {
      assert h - {a} == made && [Ret(Update), Ptr(a)] + [] == [Ret(Update), Ptr(a)];
      ThawUnder(made, c.fun, c.payload, steps, [Ret(Update), Ptr(a)]);
    } else {
      assert c.payload + [] == c.payload;
      ThawWithin(made, h, c.fun, c.payload, steps);
      assert Enter(h, Ptr(a), []) == Some((h, c.fun, c.payload));
      var t := Thaw(made, c.fun, c.payload, steps).value;
      assert Thaw(h, Ptr(a), [], steps + 1) == Some(t) && t == (t.0, t.1);
    }
  }

  lemma AcrossChunkFreezes(f: Freeze, flat: seq<Word>, o: Origin, ap: nat)
    requires Freezes(f, flat, o) && ap !in f.made
    ensures Freezes(AcrossChunk(f, ap), flat, o)
  {
    hide Thaw, Rethread, Frames, Updates, StartOk, Aps, RecordOk;
    var c := ApStackNoUpd(f.cur, f.acc);
    MadeMore(f, flat, o, ap, c, f.records);
    ThawNew(f.made, ap, c, f.steps);
  }

  lemma PastUpdateFreezes(f: Freeze, flat: seq<Word>, o: Origin, ap: nat)
    requires Freezes(f, flat, o) && ap !in f.made && f.pos + 2 <= |flat| && flat[f.pos] == Ret(Update)
    ensures Freezes(PastUpdate(f, flat[f.pos + 1], o, ap), flat, o)
  {
    hide Thaw, Rethread, Frames, Updates, StartOk, Aps, RecordOk, RecordsOk, Thaws, FrameAt, Ats;
    var f' := PastUpdate(f, flat[f.pos + 1], o, ap);
    var n := |f.records|;
    IsOneFrame(flat, f.pos, 2);
    MadeMore(f, flat, o, ap, ApStack(f.cur, f.acc), f'.records);
    NextSegment(flat, f.from, f.pos, 2);
    NextPrefix(flat, f.pos, 2);
    AtsAppend(f.records, f'.records[n]);
    NewThaws(f, flat, o, ap, f'.records);
    NewRecordOk(f, flat, o, ap, f'.records);
    RecordsSnoc(flat, f'.made, o, f'.records, n);
    if o.stop == Some(flat[f.pos + 1]) {
      Restart(flat, f'.made, f'.records, f.pos + 2, f'.cur);
      StopStart(flat, f'.made, o, f.pos + 2, f'.cur);
    }
  }

  lemma RecordsSnoc(flat: seq<Word>, made: Closures, o: Origin, rs: seq<Frozen>, n: nat)
    requires n < |rs| && RecordsOk(flat, made, o, rs, n) && RecordOk(flat, made, o, rs, n)
    ensures RecordsOk(flat, made, o, rs, n + 1)
  {
    hide RecordOk;
  }

  lemma StopStart(flat: seq<Word>, made: Closures, o: Origin, from: nat, start: Word)
    requires 2 <= from <= |flat| && FrameAt(flat, from - 2) && flat[from - 2] == Ret(Update)
             && flat[from - 1] == start && o.stop == Some(start)
    ensures StartOk(flat, made, o, from, start)
  {
  }

  lemma NewThaws(f: Freeze, flat: seq<Word>, o: Origin, ap: nat, rs: seq<Frozen>)
    requires Freezes(f, flat, o) && ap !in f.made && f.pos + 2 <= |flat| && flat[f.pos] == Ret(Update)
    requires rs == f.records + [Frozen(f.pos, ap, f.from, f.first, f.start, f.steps + 1)]
    ensures Thaws(flat, f.made[ap := ApStack(f.cur, f.acc)], rs, Ptr(ap), [], f.from, f.pos + 2, f.first, |rs|,
            f.start, f.steps + 1)
  {
    hide Thaw, Rethread, Frames, Updates, StartOk, RecordsOk;
    var b, n := flat[f.pos..f.pos + 2], |f.records|;
    var aps := Aps(f.records, f.first, n);
    NextSegment(flat, f.from, f.pos, 2);
    ApsSize(f.records, f.first, n);
    ApsAppend(f.records, rs[n], f.first, n);
    assert Aps(rs, f.first, n + 1) == aps + [ap];
    RethreadSnoc(flat[f.from..f.pos], b, aps, [ap], f.from);
    ThawNew(f.made, ap, ApStack(f.cur, f.acc), f.steps);
  }

  lemma NewRecordOk(f: Freeze, flat: seq<Word>, o: Origin, ap: nat, rs: seq<Frozen>)
    requires Freezes(f, flat, o) && ap !in f.made && f.pos + 2 <= |flat| && flat[f.pos] == Ret(Update)
    requires rs == f.records + [Frozen(f.pos, ap, f.from, f.first, f.start, f.steps + 1)]
    ensures RecordOk(flat, f.made[ap := ApStack(f.cur, f.acc)], o, rs, |f.records|)
  {
    hide Thaws;
    NewThaws(f, flat, o, ap, rs);
  }

  lemma Restart(flat: seq<Word>, made: Closures, rs: seq<Frozen>, pos: nat, cur: Word)
    requires pos <= |flat|
    ensures flat[pos..pos] == [] && Frames([]) && Updates([], pos) == []
    ensures Thaws(flat, made, rs, cur, [], pos, pos, |rs|, |rs|, cur, 0)
  {
    assert flat[pos..pos] == [];
  }

  lemma PastAtomicallyFreezes(f: Freeze, flat: seq<Word>, o: Origin, a: nat)
    requires Freezes(f, flat, o) && a !in f.made && f.pos + 3 <= |flat| && flat[f.pos] == Ret(Info.Atomically)
    ensures Freezes(PastAtomically(f, flat[f.pos + 1], a), flat, o)
  {
    hide Thaw, Rethread, Frames, Updates, Aps, RecordOk, Thaws, StartOk, Ats;
    var f' := PastAtomically(f, flat[f.pos + 1], a);
    IsOneFrame(flat, f.pos, 3);
    NextPrefix(flat, f.pos, 3);
    MadeMore(f, flat, o, a, AtomicallyThunk(flat[f.pos + 1]), f.records);
    Restart(flat, f'.made, f'.records, f'.pos, f'.cur);
    AtomicallyStart(flat, f'.made, o, f'.from, f'.start);
  }

  lemma IsOneFrame(flat: seq<Word>, pos: nat, n: nat)
    requires pos + n <= |flat| && n > 0 && flat[pos].Ret? && !Terminal(flat[pos].info) && n == SizeOf(flat[pos].info)
    ensures OneFrame(flat[pos..pos + n])
  {
  }

  lemma AtomicallyStart(flat: seq<Word>, made: Closures, o: Origin, from: nat, start: Word)
    requires 3 <= from <= |flat| && FrameAt(flat, from - 3) && flat[from - 3] == Ret(Info.Atomically)
    requires start.Ptr? && start.addr in made && made[start.addr] == AtomicallyThunk(flat[from - 2])
    ensures StartOk(flat, made, o, from, start)
  {
  }

  // ----- The heap -----

  /** `h` after updateThunk of the first `n` recorded updatees, in order, with their AP_STACKs. */
  ghost function Linked(h: Closures, flat: seq<Word>, o: Origin, rs: seq<Frozen>, n: nat): Closures
    requires n <= |rs|
  {
    if n == 0 then h
    else
      var r, before := rs[n - 1], Linked(h, flat, o, rs, n - 1);
      if Updatee(flat, r).Ptr? && o.stop != Some(Updatee(flat, r))
      then before[Updatee(flat, r).addr := Ind(Ptr(r.ap))] else before
  }

  /** Every updatee is an allocated closure. */
  ghost predicate UpdateesIn(flat: seq<Word>, h: Closures) {
    forall k: nat | FrameAt(flat, k) && flat[k] == Ret(Update) :: flat[k + 1].Ptr? && flat[k + 1].addr in h
  }

  lemma {:induction false} LinkedAppend(h: Closures, flat: seq<Word>, o: Origin, rs: seq<Frozen>, r: Frozen, n: nat)
    requires n <= |rs|
    ensures Linked(h, flat, o, rs + [r], n) == Linked(h, flat, o, rs, n)
    decreases n
  {
    if n > 0 {
      LinkedAppend(h, flat, o, rs, r, n - 1);
    }
  }

  /** The last record of an updatee decides. */
  lemma {:induction false} LinkedLast(h: Closures, flat: seq<Word>, o: Origin, rs: seq<Frozen>, n: nat, i: nat)
    requires i < n <= |rs| && Updatee(flat, rs[i]).Ptr? && o.stop != Some(Updatee(flat, rs[i]))
    requires forall j | i < j < n :: Updatee(flat, rs[j]) != Updatee(flat, rs[i])
    ensures var u := Updatee(flat, rs[i]).addr;
            u in Linked(h, flat, o, rs, n) && Linked(h, flat, o, rs, n)[u] == Ind(Ptr(rs[i].ap))
    decreases n
  {
    if i < n - 1 {
      LinkedLast(h, flat, o, rs, n - 1, i);
    }
  }

  /** Closures that are not updated stay. */
  lemma {:induction false} LinkedOthers(h: Closures, flat: seq<Word>, o: Origin, rs: seq<Frozen>, n: nat, a: nat)
    requires n <= |rs| && forall j | 0 <= j < n :: Updatee(flat, rs[j]) != Ptr(a) || o.stop == Some(Ptr(a))
    ensures a in Linked(h, flat, o, rs, n) <==> a in h
    ensures a in h ==> Linked(h, flat, o, rs, n)[a] == h[a]
    decreases n
  {
    if n > 0 {
      LinkedOthers(h, flat, o, rs, n - 1, a);
    }
  }

  /** The heap that the unwinding leaves. */
  ghost predicate HeapIs(h: Closures, h0: Closures, f: Freeze, flat: seq<Word>, o: Origin) {
    h == Linked(h0, flat, o, f.records, |f.records|) + f.made && f.made.Keys !! h0.Keys
  }

  /** Freezing and thawing is the identity. For every update frame that the unwinding passed, the closure that it would
      have updated now leads to an AP_STACK (unless a later frame updates the same closure too), and on any stack,
      entering that AP_STACK rebuilds the frames above and including the update frame, in order, with the AP_STACKs in
      place of the updatees and without the underflow frames, and enters what was on top of them. */
  lemma FreezeThenThaw(h: Closures, h0: Closures, f: Freeze, flat: seq<Word>, o: Origin, i: nat, below: seq<Word>)
    requires Freezes(f, flat, o) && HeapIs(h, h0, f, flat, o) && i < |f.records|
    requires Updatee(flat, f.records[i]).Ptr? && Updatee(flat, f.records[i]).addr in h0
    ensures var r := f.records[i];
            && r.from <= r.at && r.at + 2 <= |flat| && StartOk(flat, f.made, o, r.from, r.start) && r.first <= i
            && Thaw(h, Ptr(r.ap), below, r.steps)
               == Some((r.start, Rethread(flat[r.from..r.at + 2], Aps(f.records, r.first, i + 1)) + below))
    ensures var u := Updatee(flat, f.records[i]);
            o.stop != Some(u) && (forall j | i < j < |f.records| :: Updatee(flat, f.records[j]) != u)
            ==> u.addr in h && h[u.addr] == Ind(Ptr(f.records[i].ap))
  {
    hide Thaw, Rethread, Aps, Linked, Frames, Updates;
    var r, u := f.records[i], Updatee(flat, f.records[i]);
    assert RecordOk(flat, f.made, o, f.records, i);
    ThawWithin(f.made, h, Ptr(r.ap), [], r.steps);
    ThawUnder(h, Ptr(r.ap), [], r.steps, below);
    assert [] + below == below;
    if o.stop != Some(u) && (forall j | i < j < |f.records| :: Updatee(flat, f.records[j]) != u) {
      LinkedLast(h0, flat, o, f.records, |f.records|, i);
    }
  }

  /** Every update frame that was passed has its record. */
  lemma EveryUpdateIsRecorded(f: Freeze, flat: seq<Word>, o: Origin, k: nat) returns (i: nat)
    requires Freezes(f, flat, o) && k < f.pos && FrameAt(flat, k) && flat[k] == Ret(Update)
    ensures i < |f.records| && f.records[i].at == k
  {
    hide Thaws, RecordsOk, StartOk;
    var pre := flat[..f.pos];
    assert pre[..k] == flat[..k];
    UpdateListed(pre, k, 0);
    i := WhichRecord(f.records, k);
  }

  lemma {:induction false} UpdateListed(ws: seq<Word>, k: nat, base: nat)
    requires Frames(ws) && k < |ws| && Frames(ws[..k]) && ws[k] == Ret(Update)
    ensures base + k in Updates(ws, base)
    decreases |ws|
  {
    if k > 0 {
      var n := SizeOf(ws[0].info);
      assert HeadFrame(ws[..k]);
      assert ws[..k][n..] == ws[n..k] == ws[n..][..k - n];
      UpdateListed(ws[n..], k - n, base + n);
    }
  }

  lemma {:induction false} WhichRecord(rs: seq<Frozen>, k: nat) returns (i: nat)
    requires k in Ats(rs)
    ensures i < |rs| && rs[i].at == k
    decreases |rs|
  {
    if rs[|rs| - 1].at == k {
      i := |rs| - 1;
    } else {
      i := WhichRecord(rs[..|rs| - 1], k);
    }
  }

  lemma HeapBegins(h: Closures, flat: seq<Word>, o: Origin)
    ensures HeapIs(h, h, Begin(o), flat, o)
  {
    assert h + map[] == h;
  }

  lemma HeapAllocates(h: Closures, h0: Closures, f: Freeze, f': Freeze, flat: seq<Word>, o: Origin, a: nat, c: Closure)
    requires HeapIs(h, h0, f, flat, o) && a !in h && f'.records == f.records && f'.made == f.made[a := c]
    requires h0.Keys <= h.Keys
    ensures HeapIs(h[a := c], h0, f', flat, o)
  {
    hide Linked;
  }

  lemma HeapUpdates(h: Closures, h0: Closures, f: Freeze, flat: seq<Word>, o: Origin, ap: nat)
    requires HeapIs(h, h0, f, flat, o) && ap !in h && h0.Keys <= h.Keys
    requires f.pos + 1 < |flat| && flat[f.pos + 1].Ptr? && flat[f.pos + 1].addr in h0
    ensures var made := h[ap := ApStack(f.cur, f.acc)];
            var h' := if o.stop == Some(flat[f.pos + 1]) then made else made[flat[f.pos + 1].addr := Ind(Ptr(ap))];
            HeapIs(h', h0, PastUpdate(f, flat[f.pos + 1], o, ap), flat, o)
  {
    LinkedAppend(h0, flat, o, f.records, Frozen(f.pos, ap, f.from, f.first, f.start, f.steps + 1), |f.records|);
  }
}
