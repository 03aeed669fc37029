/** Application in the byte-code interpreter (rts/Interpreter.c). */
module Interpreter {

  type Addr = nat

  /** The application frames stg_ap_v, n, f, d, l, and stg_ap_p to stg_ap_pppppp. */
  datatype Ap = V | N | F | D | L | P(count: nat)

  const MAX_PTRS := 6

  predicate ApOk(k: Ap) { k.P? ==> 1 <= k.count <= MAX_PTRS }

  /** How many arguments a frame holds, and how many words they take (on a 64-bit machine). */
  function ArgCount(k: Ap): nat { if k.P? then k.count else 1 }
  function WordCount(k: Ap): nat { if k.P? then k.count else if k.V? then 0 else 1 }

  /** stg_ap_v holds one argument without words; the others hold a word for each argument. */
  lemma FrameWords(k: Ap)
    ensures ArgCount(k) == (match k case P(n) => n case _ => 1) && WordCount(k) == if k == V then 0 else ArgCount(k)
  {
  }

  datatype Word = ApInfo(k: Ap) | EnterInfo | UpdInfo | Ptr(a: Addr) | Raw(bits: nat)

  /** A PAP has `arity` arguments to go; an AP is a suspended application of a BCO to all its arguments. Either is first
      allocated with room for `size` words, and filled in later. */
  datatype Closure =
    | Bco(arity: nat)
    | Pap(arity: nat, fun: Addr, payload: seq<Word>)
    | ApThunk(code: Addr, payload: seq<Word>)
    | Unfilled(arity: nat, size: nat)
    | Other(id: nat)

  type Heap = map<Addr, Closure>

  // ----- Arguments -----

  /** The words of one argument. */
  type Arg = seq<Word>

  function Singles(ws: seq<Word>): (args: seq<Arg>)
    ensures |args| == |ws|
  {
    seq(|ws|, i requires 0 <= i < |ws| => [ws[i]])
  }

  function Args(k: Ap, ws: seq<Word>): seq<Arg> {
    if k.P? then Singles(ws) else [ws]
  }

  function Concat(args: seq<Arg>): seq<Word> {
    if args == [] then [] else args[0] + Concat(args[1..])
  }

  /** An application frame on the stack. */
  datatype Frame = Frame(k: Ap, words: seq<Word>)

  predicate FrameOk(f: Frame) { ApOk(f.k) && |f.words| == WordCount(f.k) }

  ghost predicate FramesOk(fs: seq<Frame>) { forall i | 0 <= i < |fs| :: FrameOk(fs[i]) }

  ghost function Words(fs: seq<Frame>): seq<Word> {
    if fs == [] then [] else [ApInfo(fs[0].k)] + fs[0].words + Words(fs[1..])
  }

  /** All the arguments that are waiting, however they are grouped into frames. */
  ghost function Pending(fs: seq<Frame>): seq<Arg> {
    if fs == [] then [] else Args(fs[0].k, fs[0].words) + Pending(fs[1..])
  }

  lemma {:induction false} ConcatAppend(a: seq<Arg>, b: seq<Arg>)
    ensures Concat(a + b) == Concat(a) + Concat(b)
    decreases |a|
  {
    if a == [] {
      assert a + b == b;
    } else {
      ConcatAppend(a[1..], b);
      assert (a + b)[1..] == a[1..] + b;
    }
  }

  lemma {:induction false} ConcatSingles(ws: seq<Word>)
    ensures Concat(Singles(ws)) == ws
    decreases |ws|
  {
    if ws != [] {
      ConcatSingles(ws[1..]);
      assert Singles(ws)[1..] == Singles(ws[1..]);
    }
  }

  /** The words of a frame are those of its arguments. */
  lemma ConcatArgs(f: Frame)
    requires FrameOk(f)
    ensures Concat(Args(f.k, f.words)) == f.words && |Args(f.k, f.words)| == ArgCount(f.k)
  {
    if f.k.P? {
      ConcatSingles(f.words);
    } else {
      assert [f.words][1..] == [];
    }
  }

  /** The first arguments of a frame with several, and the frame that is left for the others. */
  lemma SplitArgs(f: Frame, n: nat)
    requires FrameOk(f) && 0 < n < ArgCount(f.k)
    ensures f.k.P? && Concat(Args(f.k, f.words)[..n]) == f.words[..n]
    ensures FrameOk(Frame(P(f.k.count - n), f.words[n..])) && Args(P(f.k.count - n), f.words[n..])
            == Args(f.k, f.words)[n..]
  {
    assert Singles(f.words)[..n] == Singles(f.words[..n]) && Singles(f.words)[n..] == Singles(f.words[n..]);
    ConcatSingles(f.words[..n]);
  }

  // ----- Functions and what they have been applied to -----

  ghost predicate HeapOk(h: Heap) {
    forall a | a in h ::
      && (h[a].Bco? ==> h[a].arity > 0)
      && (h[a].Pap? ==> h[a].fun in h && h[a].arity > 0 && (h[h[a].fun].Bco? ==> h[a].arity <= h[h[a].fun].arity))
  }

  /** A BCO, or a PAP of one: the interpreter applies it itself. */
  predicate Interpreted(h: Heap, f: Addr) {
    f in h && (h[f].Bco? || (h[f].Pap? && h[f].fun in h && h[h[f].fun].Bco?))
  }

  /** The BCO, the words of the arguments that it has, how many these are, and how many it still needs. */
  datatype Spine = Spine(bco: Addr, words: seq<Word>, have: nat, need: nat)

  ghost function SpineOf(h: Heap, f: Addr): Spine
    requires Interpreted(h, f) && HeapOk(h)
  {
    if h[f].Bco? then Spine(f, [], 0, h[f].arity)
    else Spine(h[f].fun, h[f].payload, h[h[f].fun].arity - h[f].arity, h[f].arity)
  }

  // ----- Moving words -----

  /** The first `i` words have been moved down. */
  ghost predicate Shuffling(before: seq<Word>, now: seq<Word>, sp: nat, i: nat, n: nat) {
    && |now| == |before| && i <= n && 1 <= sp && sp + n <= |before|
    && (forall k | sp - 1 <= k < sp - 1 + i :: now[k] == before[k + 1])
    && (forall k | sp + i <= k < |now| :: now[k] == before[k])
  }

  lemma ShuffleStarts(before: seq<Word>, sp: nat, n: nat)
    requires 1 <= sp && sp + n <= |before|
    ensures Shuffling(before, before, sp, 0, n)
  {
  }

  lemma ShuffleStep(before: seq<Word>, now: seq<Word>, sp: nat, i: nat, n: nat)
    requires Shuffling(before, now, sp, i, n) && i < n
    ensures |now| == |before| && sp + i < |now| && 1 <= sp && Shuffling(before, now[sp + i - 1 := now[sp + i]], sp,
            i + 1, n)
  {
  }

  lemma Shuffled(before: seq<Word>, now: seq<Word>, sp: nat, arity: nat, w: Word)
    requires Shuffling(before, now, sp, arity, arity) && arity > 0
    ensures |now| == |before| && 1 <= sp && now[sp + arity - 1 := w][sp - 1..]
            == before[sp..][..arity] + [w] + before[sp..][arity..]
  {
  }

  /** The words from `i` on have been moved up. */
  ghost predicate Sliding(before: seq<Word>, now: seq<Word>, sp: nat, i: nat, n: nat, drop: nat) {
    && |now| == |before| && i <= n && sp + n + drop <= |before|
    && (forall k | 0 <= k < sp + i :: now[k] == before[k])
    && (forall k | sp + i + drop <= k < sp + n + drop :: now[k] == before[k - drop])
    && (forall k | sp + n + drop <= k < |now| :: now[k] == before[k])
  }

  lemma SlideStarts(before: seq<Word>, sp: nat, n: nat, drop: nat)
    requires sp + n + drop <= |before|
    ensures Sliding(before, before, sp, n, n, drop)
  {
  }

  lemma SlideStep(before: seq<Word>, now: seq<Word>, sp: nat, i: nat, n: nat, drop: nat)
    requires Sliding(before, now, sp, i + 1, n, drop)
    ensures sp + i + drop < |now| && Sliding(before, now[sp + i + drop := now[sp + i]], sp, i, n, drop)
  {
  }

  lemma Slid(before: seq<Word>, after: seq<Word>, sp: nat, n: nat, drop: nat)
    requires Sliding(before, after, sp, 0, n, drop)
    ensures after[sp + drop..] == before[sp..][..n] + before[sp..][n + drop..]
  {
  }

  // ----- The interpreter -----

  datatype Outcome =
    | Run(bco: Addr)         // run_BCO_fun
    | Return(a: Addr)        // do_return_pointer
    | StackOverflow          // back to the scheduler, to be entered again with more stack
    | Defer                  // back to the scheduler, to be applied by compiled code

  class InterpState {
    const stack: array<Word>
    const spLim: nat
    var sp: nat
    var heap: Heap
    var next: nat

    constructor (stack: array<Word>, spLim: nat, sp: nat)
      requires 2 <= spLim <= sp <= stack.Length
      ensures Valid() && this.stack == stack && this.sp == sp && this.spLim == spLim && heap == map[]
    {
      this.stack, this.spLim, this.sp := stack, spLim, sp;
      heap, next := map[], 0;
    }

    ghost predicate Valid()
      reads this
    {
      2 <= spLim <= sp <= stack.Length && HeapOk(heap) && forall a | a in heap :: a < next
    }

    ghost function Live(): seq<Word>
      reads this`sp, stack
    {
      if sp <= stack.Length then stack[sp..] else []
    }

    method Allocate(c: Closure) returns (a: Addr)
      requires forall a | a in heap :: a < next
      modifies this`heap, this`next
      ensures a !in old(heap) && heap == old(heap)[a := c] && (forall a | a in heap :: a < next)
    {
      a := next;
      heap := heap[a := c];
      next := next + 1;
    }

    /** Copies `payload` onto the stack. */
    method PushAll(payload: seq<Word>)
      requires |payload| <= sp <= stack.Length
      modifies this`sp, stack
      ensures sp == old(sp) - |payload| && Live() == payload + old(Live())
    {
      ghost var before := Live();
      sp := sp - |payload|;
      var i := 0;
      while i < |payload|
        modifies stack
        invariant 0 <= i <= |payload| && stack[sp..sp + i] == payload[..i] && stack[old(sp)..] == before
      {
        stack[sp + i] := payload[i];
        i := i + 1;
        assert stack[sp..sp + i] == stack[sp..sp + i - 1] + [stack[sp + i - 1]];
      }
      assert stack[sp..] == stack[sp..old(sp)] + stack[old(sp)..];
    }

    /** The argument shuffle: the first `arity` of the arguments move down by one word, over the info word of their
        frame, and the gap gets the info word for the others. On return sp is at the first argument. */
    method Shuffle(n: nat, arity: nat)
      requires 0 < arity < n <= MAX_PTRS && 1 <= sp && sp + n <= stack.Length
      modifies this`sp, stack
      ensures sp == old(sp) - 1
      ensures Live() == old(Live())[..arity] + [ApInfo(P(n - arity))] + old(Live())[arity..]
    {
      hide Shuffling;
      ghost var before := stack[..];
      ShuffleStarts(before, sp, arity);
      var i := 0;
      while i < arity
        modifies stack
        invariant 0 <= i <= arity && Shuffling(before, stack[..], sp, i, arity)
      {
        ShuffleStep(before, stack[..], sp, i, arity);
        ghost var next := stack[..][sp + i - 1 := stack[sp + i]];
        stack[sp + i - 1] := stack[sp + i];
        assert stack[..] == next;
        i := i + 1;
      }
      Shuffled(before, stack[..], sp, arity, ApInfo(P(n - arity)));
      ghost var done := stack[..][sp + arity - 1 := ApInfo(P(n - arity))];
      stack[sp + arity - 1] := ApInfo(P(n - arity));
      assert stack[..] == done;
      sp := sp - 1;
    }

    /** SLIDE: the `drop` words under the top `n` words go; both the words above and those below them stay. */
    method Slide(n: nat, drop: nat)
      requires sp + n + drop <= stack.Length
      modifies this`sp, stack
      ensures sp == old(sp) + drop && Live() == old(Live())[..n] + old(Live())[n + drop..]
    {
      hide Sliding;
      ghost var before := stack[..];
      SlideStarts(before, sp, n, drop);
      var i := n;
      while i > 0
        modifies stack
        invariant 0 <= i <= n && Sliding(before, stack[..], sp, i, n, drop)
      {
        i := i - 1;
        SlideStep(before, stack[..], sp, i, n, drop);
        ghost var next := stack[..][sp + i + drop := stack[sp + i]];
        stack[sp + i + drop] := stack[sp + i];
        assert stack[..] == next;
      }
      Slid(before, stack[..], sp, n, drop);
      sp := sp + drop;
    }

    /** Leaves `f` to be entered. */
    method PushEnter(f: Addr)
      requires 2 <= sp <= stack.Length
      modifies this`sp, stack
      ensures sp == old(sp) - 2 && Live() == [EnterInfo, Ptr(f)] + old(Live())
    {
      ghost var before := Live();
      sp := sp - 2;
      stack[sp + 1] := Ptr(f);
      stack[sp] := EnterInfo;
      assert stack[sp + 2..] == before;
      assert stack[sp..] == [stack[sp], stack[sp + 1]] + stack[sp + 2..];
    }

    /** A PAP for the `m` words on top of the stack. */
    method MakePap(arity: nat, fun: Addr, payload: seq<Word>, m: nat) returns (a: Addr)
      requires Valid() && sp + m <= stack.Length && 0 < arity && fun in heap && heap[fun].Bco?
               && arity <= heap[fun].arity
      modifies this`sp, this`heap, this`next
      ensures Valid() && a !in old(heap) && sp == old(sp) + m
      ensures heap == old(heap)[a := Pap(arity, fun, payload + old(Live())[..m])] && Live() == old(Live())[m..]
    {
      var p := payload;
      var i := 0;
      while i < m
        modifies {}
        invariant 0 <= i <= m && p == payload + stack[sp..sp + i]
      {
        p := p + [stack[sp + i]];
        i := i + 1;
      }
      assert stack[sp..sp + m] == stack[sp..][..m];
      a := Allocate(Pap(arity, fun, p));
      sp := sp + m;
      assert stack[sp..] == stack[old(sp)..][m..];
    }

    /** do_apply: `f` is applied to the arguments of the frame on top of the stack. */
    method DoApply(f: Addr, ghost fr: Frame, ghost below: seq<Word>) returns (r: Outcome)
      requires Valid() && f in heap && FrameOk(fr) && Live() == [ApInfo(fr.k)] + fr.words + below
      modifies this`sp, this`heap, this`next, stack
      ensures r.Run? || r.Return? ==> Valid()
      ensures r == Defer <==> !Interpreted(old(heap), f)
      ensures r == Defer || r == StackOverflow ==> heap == old(heap) && Live() == [EnterInfo, Ptr(f)] + old(Live())
      ensures Interpreted(old(heap), f) ==> Applied(old(heap), heap, f, fr, below, r, Live())
      ensures r == StackOverflow <==>
              Interpreted(old(heap), f) && old(heap)[f].Pap? && old(sp) - (|old(heap)[f].payload| + 1) < spLim
      ensures r == StackOverflow ==> sp == old(sp) - 2
    {
      hide HeapOk, Applied, SpineOf, Entered;
      ValidHeap();
      ghost var h0 := heap;
      LiveFrame(Live(), fr, below);
      var k := stack[sp].k;
      if heap[f].Bco? {
        sp := sp + 1;
        Skipped(fr, below);
        BcoFacts(h0, f);
        r := ApplyArgs(k, f, heap[f].arity, [], fr, below);
        IsApplied(h0, heap, f, fr, below, r, Live(), f, h0[f].arity, []);
      } else if heap[f].Pap? && heap[heap[f].fun].Bco? {
        r := ApplyPap(k, f, fr, below);
      } else {
        PushEnter(f);
        return Defer;
      }
    }

    /** do_apply for a PAP, whose arguments are unpacked onto the stack if they fit. */
    method ApplyPap(k: Ap, f: Addr, ghost fr: Frame, ghost below: seq<Word>) returns (r: Outcome)
      requires Valid() && Interpreted(heap, f) && heap[f].Pap? && FrameOk(fr) && k == fr.k
      requires Live() == [ApInfo(fr.k)] + fr.words + below
      modifies this`sp, this`heap, this`next, stack
      ensures r != Defer && (r != StackOverflow ==> Valid())
      ensures r == StackOverflow ==>
                heap == old(heap) && Live() == [EnterInfo, Ptr(f)] + old(Live()) && sp == old(sp) - 2
      ensures r == StackOverflow <==> old(sp) - (|old(heap)[f].payload| + 1) < spLim
      ensures Applied(old(heap), heap, f, fr, below, r, Live())
    {
      hide HeapOk, Applied, SpineOf, Entered;
      ValidHeap();
      ghost var h0 := heap;
      var pap := heap[f];
      if sp - (|pap.payload| + 1) < spLim {
        PushEnter(f);
        OverflowApplied(h0, f, fr, below, Live());
        return StackOverflow;
      }
      LiveFrame(Live(), fr, below);
      sp := sp + 1;
      Skipped(fr, below);
      BcoFacts(h0, f);
      r := ApplyArgs(k, pap.fun, pap.arity, pap.payload, fr, below);
      IsApplied(h0, heap, f, fr, below, r, Live(), pap.fun, pap.arity, pap.payload);
    }

    /** The three cases: too many arguments, just enough, and too few. */
    method ApplyArgs(k: Ap, fun: Addr, arity: nat, payload: seq<Word>, ghost fr: Frame,
        ghost below: seq<Word>) returns (r: Outcome)
      requires Valid() && fun in heap && heap[fun].Bco? && 0 < arity <= heap[fun].arity && spLim < sp
      requires FrameOk(fr) && k == fr.k && Live() == fr.words + below && |payload| <= sp - 1 - spLim
      modifies this`sp, this`heap, this`next, stack
      ensures Valid() && (r.Run? || r.Return?)
      ensures r.Run? ==>
                && r.bco == fun && arity <= ArgCount(k) && heap == old(heap)
                && Live() == payload + Entered(fr, arity) + below
      ensures r.Return? ==>
                && arity > ArgCount(k) && Live() == below && r.a !in old(heap)
                && heap == old(heap)[r.a := Pap(arity - ArgCount(k), fun, payload + fr.words)]
    {
      hide HeapOk, Entered;
      var n := ArgCount(k);
      if arity < n {
        Shuffle(n, arity);
        ShuffledFrame(fr, arity, below);
        PushPayload(payload, Entered(fr, arity), below);
        r := Run(fun);
      } else if arity == n {
        AllEntered(fr);
        PushPayload(payload, Entered(fr, arity), below);
        r := Run(fun);
      } else {
        TopWords(fr, below);
        var a := MakePap(arity - n, fun, payload, WordCount(k));
        r := Return(a);
      }
    }

    method PushPayload(payload: seq<Word>, ghost args: seq<Word>, ghost below: seq<Word>)
      requires |payload| <= sp <= stack.Length && Live() == args + below
      modifies this`sp, stack
      ensures sp == old(sp) - |payload| && Live() == payload + args + below
    {
      AssocWords(payload, args, below);
      PushAll(payload);
    }

    /** ALLOC_AP (arity 0) and ALLOC_PAP */
    method AllocUnfilled(arity: nat, size: nat)
      requires Valid() && sp > spLim
      modifies this`sp, this`heap, this`next, stack
      ensures Valid() && Live() != [] && Live()[0].Ptr? && Live()[1..] == old(Live())
      ensures Live()[0].a !in old(heap) && heap == old(heap)[Live()[0].a := Unfilled(arity, size)]
    {
      ghost var before := Live();
      var a := Allocate(Unfilled(arity, size));
      stack[sp - 1] := Ptr(a);
      sp := sp - 1;
      assert stack[sp + 1..] == before;
    }

    /** The words of a closure that is being filled in. */
    method TakeWords(n: nat) returns (payload: seq<Word>)
      requires sp + n + 1 <= stack.Length
      modifies this`sp
      ensures sp == old(sp) + n + 1 && payload == old(Live())[1..n + 1] && Live() == old(Live())[n + 1..]
    {
      payload := [];
      var i := 0;
      while i < n
        modifies {}
        invariant 0 <= i <= n && payload == stack[sp + 1..sp + 1 + i]
      {
        payload := payload + [stack[sp + i + 1]];
        i := i + 1;
      }
      assert stack[sp + 1..sp + 1 + n] == stack[sp..][1..n + 1];
      sp := sp + n + 1;
      assert stack[sp..] == stack[old(sp)..][n + 1..];
    }

    /** MKAP and MKPAP: the closure at `stkoff` gets the function and the arguments on top of the stack, in order. */
    method Fill(stkoff: nat, n: nat)
      requires Valid() && sp + n + 1 <= stack.Length && sp + stkoff < stack.Length
      requires stack[sp + stkoff].Ptr? && stack[sp + stkoff].a in heap && heap[stack[sp + stkoff].a].Unfilled?
      requires heap[stack[sp + stkoff].a].size == n
      requires stack[sp].Ptr? && stack[sp].a in heap && heap[stack[sp].a].Bco?
               && heap[stack[sp + stkoff].a].arity <= heap[stack[sp].a].arity
      modifies this`sp, this`heap
      ensures Valid() && Live() == old(Live())[n + 1..]
      ensures var c, bco, args := old(stack[sp + stkoff].a), old(stack[sp].a), old(Live())[1..n + 1];
              heap == old(heap)[c := if old(heap)[c].arity == 0 then ApThunk(bco, args)
                  else Pap(old(heap)[c].arity, bco, args)]
    {
      var c, bco := stack[sp + stkoff].a, stack[sp].a;
      var payload := TakeWords(n);
      FillOk(heap, c, bco, payload);
      heap := heap[c := if heap[c].arity == 0 then ApThunk(bco, payload) else Pap(heap[c].arity, bco, payload)];
    }

    /** eval_obj for an AP: below an update frame for it, its code runs with its arguments on top of the stack. */
    method EvalAp(a: Addr) returns (r: Outcome)
      requires Valid() && a in heap && heap[a].ApThunk?
      modifies this`sp, stack
      ensures r == if old(sp) - (|heap[a].payload| + 4) < spLim then StackOverflow else Run(heap[a].code)
      ensures r == StackOverflow ==> Live() == [EnterInfo, Ptr(a)] + old(Live())
      ensures r.Run? ==> Valid() && Live() == heap[a].payload + ([UpdInfo, Ptr(a)] + old(Live()))
    {
      var ap := heap[a];
      if sp - (|ap.payload| + 4) < spLim {
        PushEnter(a);
        return StackOverflow;
      }
      PushUpdate(a);
      PushAll(ap.payload);
      r := Run(ap.code);
    }

    /** An update frame for `a`. */
    method PushUpdate(a: Addr)
      requires 2 <= sp <= stack.Length
      modifies this`sp, stack
      ensures sp == old(sp) - 2 && Live() == [UpdInfo, Ptr(a)] + old(Live())
    {
      ghost var before := Live();
      sp := sp - 2;
      stack[sp + 1] := Ptr(a);
      stack[sp] := UpdInfo;
      assert stack[sp + 2..] == before;
      assert stack[sp..] == [stack[sp], stack[sp + 1]] + stack[sp + 2..];
    }

    lemma TopOfLive()
      requires Live() != []
      ensures sp < stack.Length && stack[sp] == Live()[0]
    {
    }

    lemma ValidHeap()
      requires Valid()
      ensures HeapOk(heap)
    {
    }

    /** `f` is applied to everything that waits for it on the stack, frame by frame, with intermediate PAPs. */
    method Apply(f: Addr, ghost fs: seq<Frame>, ghost rest: seq<Word>) returns (r: Outcome, at: Addr,
        ghost left: seq<Frame>, ghost done: nat)
      requires Valid() && Interpreted(heap, f) && FramesOk(fs) && Live() == Words(fs) + rest && rest != []
               && !rest[0].ApInfo?
      modifies this`sp, this`heap, this`next, stack
      ensures ApplyResult(old(heap), heap, f, fs, rest, r, at, left, done, Live())
      ensures r == StackOverflow ==> at in heap && heap[at].Pap? && sp + 2 - (|heap[at].payload| + 1) < spLim
    {
      hide *;
      ValidHeap();
      ghost var h0 := heap;
      at, left, done := f, fs, 0;
      Unapplied(h0, f, fs);
      StackTop(left, rest);
      TopOfLive();
      while stack[sp].ApInfo?
        invariant Valid() && Applying(h0, heap, f, fs, at, left, done)
        invariant Live() == Words(left) + rest && sp < stack.Length && (stack[sp].ApInfo? <==> left != [])
        decreases |left|
      {
        ghost var fr, more := left[0], left[1..];
        FirstFrame(left, rest);
        ApplyingFacts(h0, heap, f, fs, at, left, done);
        ghost var h1 := heap;
        r := DoApply(at, fr, Words(more) + rest);
        match r {
          case Run(bco) =>
            left := Enters(h0, h1, heap, f, fs, at, left, done, bco, rest, Live());
            return;
          case Return(a) =>
            Continues(h0, h1, heap, f, fs, at, left, done, a, rest, Live());
            at, done, left := a, done + ArgCount(fr.k), more;
            StackTop(left, rest);
            TopOfLive();
          case StackOverflow =>
            Overflowed(h0, heap, f, fs, at, left, done, rest);
            return;
          case Defer => assert false;
        }
      }
      AllApplied(h0, heap, f, fs, at, left, done, rest);
      r := Return(at);
    }
  }

  lemma FillOk(h: Heap, c: Addr, bco: Addr, payload: seq<Word>)
    requires HeapOk(h) && c in h && h[c].Unfilled? && bco in h && h[bco].Bco? && h[c].arity <= h[bco].arity
    ensures HeapOk(h[c := if h[c].arity == 0 then ApThunk(bco, payload) else Pap(h[c].arity, bco, payload)])
  {
  }

  /** Two groupings of the same arguments lead to the same code with the same words on the stack, and the same arguments
      still wait; or to PAPs of the same code with the same arguments. */
  lemma GroupingDoesNotMatter(h0: Heap, h1: Heap, h2: Heap, f: Addr, fs1: seq<Frame>, fs2: seq<Frame>, rest: seq<Word>,
                              r1: Outcome, r2: Outcome, left1: seq<Frame>, left2: seq<Frame>,
                              live1: seq<Word>, live2: seq<Word>, at: Addr, done: nat)
    requires Pending(fs1) == Pending(fs2) && r1 != StackOverflow && r2 != StackOverflow
    requires ApplyResult(h0, h1, f, fs1, rest, r1, at, left1, done, live1)
             && ApplyResult(h0, h2, f, fs2, rest, r2, at, left2, done, live2)
    ensures r1.Run? ==> r2 == r1 && Pending(left1) == Pending(left2)
                        && live1[..|live1| - |Words(left1) + rest|] == live2[..|live2| - |Words(left2) + rest|]
    ensures r1.Return? ==> r2.Return? && live1 == live2 && Interpreted(h1, r1.a) && Interpreted(h2, r2.a)
                           && HeapOk(h1) && HeapOk(h2) && SpineOf(h1, r1.a) == SpineOf(h2, r2.a)
  {
    hide HeapOk, Interpreted, SpineOf, Grows, FramesOk, Pending, Words, Concat;
    var s, args := SpineOf(h0, f), Pending(fs1);
    if r1.Run? {
      var top := s.words + Concat(args[..s.need]);
      Prefix(top, Words(left1), rest);
      Prefix(top, Words(left2), rest);
    }
  }

  lemma Prefix(top: seq<Word>, w: seq<Word>, rest: seq<Word>)
    ensures (top + w + rest)[..|top + w + rest| - |w + rest|] == top
  {
  }

  /** `at` is `f` applied to the first `done` of the waiting arguments, and `left` holds the others. */
  ghost predicate Applying(h0: Heap, h: Heap, f: Addr, fs: seq<Frame>, at: Addr, left: seq<Frame>, done: nat) {
    && HeapOk(h0) && HeapOk(h) && Grows(h0, h) && Interpreted(h0, f) && Interpreted(h, at) && FramesOk(left)
    && done <= |Pending(fs)| && done < SpineOf(h0, f).need && Pending(left) == Pending(fs)[done..]
    && SpineOf(h, at) == Given(SpineOf(h0, f), Pending(fs)[..done])
  }

  /** What becomes of the application of `f` to everything that waits for it: it depends only on the arguments, not on
      how they are grouped. Either there are enough: then the code runs with exactly its arguments on top of the stack,
      in order, and the others still wait; or a PAP with all of them is returned to what is below. If the stack is too
      small, a PAP with those that have been taken is left to be entered, and none is lost. */
  ghost predicate ApplyResult(h0: Heap, h: Heap, f: Addr, fs: seq<Frame>, rest: seq<Word>, r: Outcome,
                              at: Addr, left: seq<Frame>, done: nat, live: seq<Word>) {
    && HeapOk(h0) && HeapOk(h) && Grows(h0, h) && Interpreted(h0, f) && FramesOk(left)
    && var s, args := SpineOf(h0, f), Pending(fs);
       match r
       case Run(bco) =>
         && bco == s.bco && s.need <= |args| && Pending(left) == args[s.need..]
         && live == s.words + Concat(args[..s.need]) + Words(left) + rest
       case Return(a) => |args| < s.need && live == rest && Interpreted(h, a) && SpineOf(h, a) == Given(s, args)
       case StackOverflow =>
         && done <= |args| && done < s.need && Pending(left) == args[done..] && Interpreted(h, at)
         && SpineOf(h, at) == Given(s, args[..done]) && live == [EnterInfo, Ptr(at)] + (Words(left) + rest)
       case Defer => false
  }

  lemma Overflowed(h0: Heap, h: Heap, f: Addr, fs: seq<Frame>, at: Addr, left: seq<Frame>, done: nat, rest: seq<Word>)
    requires Applying(h0, h, f, fs, at, left, done)
    ensures ApplyResult(h0, h, f, fs, rest, StackOverflow, at, left, done, [EnterInfo, Ptr(at)] + (Words(left) + rest))
  {
  }

  lemma AllApplied(h0: Heap, h: Heap, f: Addr, fs: seq<Frame>, at: Addr, left: seq<Frame>, done: nat, rest: seq<Word>)
    requires Applying(h0, h, f, fs, at, left, done) && left == []
    ensures ApplyResult(h0, h, f, fs, rest, Return(at), at, left, done, rest) && Words(left) + rest == rest
  {
    hide HeapOk, FramesOk, Grows, Interpreted, SpineOf;
    assert Pending(fs)[done..] == [];
    assert Pending(fs)[..done] == Pending(fs);
  }

  /** One frame less, and its arguments given. */
  lemma Continues(h0: Heap, h1: Heap, h: Heap, f: Addr, fs: seq<Frame>, at: Addr, left: seq<Frame>, done: nat,
      a: Addr, rest: seq<Word>, live: seq<Word>)
    requires Applying(h0, h1, f, fs, at, left, done) && left != [] && FrameOk(left[0]) && Interpreted(h1, at)
    requires Applied(h1, h, at, left[0], Words(left[1..]) + rest, Return(a), live)
    ensures Applying(h0, h, f, fs, a, left[1..], done + ArgCount(left[0].k)) && live == Words(left[1..]) + rest
  {
    hide HeapOk, SpineOf;
    var fr, args := left[0], Pending(fs);
    var here := Args(fr.k, fr.words);
    ConcatArgs(fr);
    assert Pending(left) == here + Pending(left[1..]);
    TakeMore(args, done, here, Pending(left[1..]));
    ConcatAppend(args[..done], here);
    AssocWords(SpineOf(h0, f).words, Concat(args[..done]), fr.words);
  }

  lemma TakeMore(args: seq<Arg>, done: nat, here: seq<Arg>, later: seq<Arg>)
    requires done <= |args| && args[done..] == here + later
    ensures done + |here| <= |args| && args[..done + |here|] == args[..done] + here && args[done + |here|..] == later
  {
    assert args == args[..done] + (here + later);
  }

  /** The function has all its arguments. */
  lemma Enters(h0: Heap, h1: Heap, h: Heap, f: Addr, fs: seq<Frame>, at: Addr, left: seq<Frame>, done: nat, bco: Addr,
      rest: seq<Word>, live: seq<Word>)
    returns (left': seq<Frame>)
    requires Applying(h0, h1, f, fs, at, left, done) && left != [] && FrameOk(left[0]) && Interpreted(h1, at)
    requires Applied(h1, h, at, left[0], Words(left[1..]) + rest, Run(bco), live)
    ensures ApplyResult(h0, h, f, fs, rest, Run(bco), at, left', done, live)
  {
    hide HeapOk, SpineOf, Interpreted, Concat, Entered, Applying, Applied, ApplyResult, Words, Pending;
    EntersFacts(h0, h1, h, f, fs, at, left, done, bco, rest, live);
    var fr, args, s, more := left[0], Pending(fs), SpineOf(h0, f), left[1..];
    var need, here := s.need - done, Args(fr.k, fr.words);
    left' := if need == ArgCount(fr.k) then more else [Frame(P(ArgCount(fr.k) - need), fr.words[need..])] + more;
    Surplus(fr, need, more);
    SplitSeq(here, need, Pending(more));
    TakeMore(args, done, here[..need], here[need..] + Pending(more));
    ConcatAppend(args[..done], here[..need]);
    assert done + |here[..need]| == s.need && Concat(args[..s.need]) == Concat(args[..done]) + Concat(here[..need]);
    Entering(s.words, Concat(args[..done]), Concat(here[..need]), Entered(fr, need), Words(left'), Words(more), rest);
    RunResult(h0, h, f, fs, rest, at, left', done, live);
  }

  lemma EntersFacts(h0: Heap, h1: Heap, h: Heap, f: Addr, fs: seq<Frame>, at: Addr, left: seq<Frame>, done: nat,
      bco: Addr, rest: seq<Word>, live: seq<Word>)
    requires Applying(h0, h1, f, fs, at, left, done) && left != [] && FrameOk(left[0]) && Interpreted(h1, at)
    requires Applied(h1, h, at, left[0], Words(left[1..]) + rest, Run(bco), live)
    ensures HeapOk(h0) && HeapOk(h) && Grows(h0, h) && Interpreted(h0, f) && FramesOk(left[1..])
    ensures var s, fr := SpineOf(h0, f), left[0];
            && bco == s.bco && 0 < s.need - done <= ArgCount(fr.k) && done <= |Pending(fs)|
            && live == (s.words + Concat(Pending(fs)[..done])) + Entered(fr, s.need - done) + (Words(left[1..]) + rest)
            && Pending(fs)[done..] == Args(fr.k, fr.words) + Pending(left[1..])
  {
    hide HeapOk, SpineOf, Entered, Concat, Words;
  }

  lemma RunResult(h0: Heap, h: Heap, f: Addr, fs: seq<Frame>, rest: seq<Word>, at: Addr, left: seq<Frame>, done: nat,
      live: seq<Word>)
    requires HeapOk(h0) && HeapOk(h) && Grows(h0, h) && Interpreted(h0, f) && FramesOk(left)
    requires var s, args := SpineOf(h0, f), Pending(fs);
             s.need <= |args| && Pending(left) == args[s.need..]
                 && live == s.words + Concat(args[..s.need]) + Words(left) + rest
    ensures ApplyResult(h0, h, f, fs, rest, Run(SpineOf(h0, f).bco), at, left, done, live)
  {
    hide HeapOk, SpineOf, Interpreted, Grows, FramesOk, Pending, Words, Concat;
  }

  lemma SplitSeq(here: seq<Arg>, n: nat, later: seq<Arg>)
    requires n <= |here|
    ensures here + later == here[..n] + (here[n..] + later)
  {
  }

  lemma Entering(a: seq<Word>, b: seq<Word>, c: seq<Word>, e: seq<Word>, w: seq<Word>, w': seq<Word>, rest: seq<Word>)
    requires e + w' == c + w
    ensures (a + b) + e + (w' + rest) == a + (b + c) + w + rest
  {
    calc {
      (a + b) + e + (w' + rest);
      (a + b) + (e + w') + rest;
      (a + b) + (c + w) + rest;
      a + (b + c) + w + rest;
    }
  }

  lemma SurplusWords(a: seq<Word>, i: seq<Word>, b: seq<Word>, w: seq<Word>)
    ensures (a + i + b) + w == a + (i + b + w)
  {
  }

  /** What is left of a frame is again a frame, with the right info word. */
  lemma Surplus(fr: Frame, need: nat, more: seq<Frame>)
    requires FrameOk(fr) && 0 < need <= ArgCount(fr.k)
    ensures var left := if need == ArgCount(fr.k) then more
              else [Frame(P(ArgCount(fr.k) - need), fr.words[need..])] + more;
            && (FramesOk(more) ==> FramesOk(left))
            && |Args(fr.k, fr.words)| == ArgCount(fr.k)
            && Pending(left) == Args(fr.k, fr.words)[need..] + Pending(more)
            && Entered(fr, need) + Words(more) == Concat(Args(fr.k, fr.words)[..need]) + Words(left)
  {
    hide Args, Concat, Singles;
    ConcatArgs(fr);
    var here := Args(fr.k, fr.words);
    if need == ArgCount(fr.k) {
      assert here[..need] == here && here[need..] == [];
    } else {
      SplitArgs(fr, need);
      var f' := Frame(P(ArgCount(fr.k) - need), fr.words[need..]);
      assert ([f'] + more)[1..] == more;
      assert Words([f'] + more) == [ApInfo(f'.k)] + f'.words + Words(more);
      SurplusWords(fr.words[..need], [ApInfo(f'.k)], f'.words, Words(more));
    }
  }

  /** A function with more arguments. */
  ghost function Given(s: Spine, args: seq<Arg>): Spine {
    Spine(s.bco, s.words + Concat(args), s.have + |args|, if |args| <= s.need then s.need - |args| else 0)
  }

  lemma Unapplied(h: Heap, f: Addr, fs: seq<Frame>)
    requires HeapOk(h) && Interpreted(h, f) && FramesOk(fs)
    ensures Applying(h, h, f, fs, f, fs, 0)
  {
    assert Pending(fs)[..0] == [] && Pending(fs)[0..] == Pending(fs) && SpineOf(h, f).words + [] == SpineOf(h, f).words;
  }

  lemma StackTop(fs: seq<Frame>, rest: seq<Word>)
    requires rest != [] && !rest[0].ApInfo?
    ensures var live := Words(fs) + rest; live != [] && (live[0].ApInfo? <==> fs != [])
  {
  }

  lemma FirstFrame(fs: seq<Frame>, rest: seq<Word>)
    requires fs != []
    ensures Words(fs) + rest == [ApInfo(fs[0].k)] + fs[0].words + (Words(fs[1..]) + rest)
  {
  }

  lemma ApplyingFacts(h0: Heap, h: Heap, f: Addr, fs: seq<Frame>, at: Addr, left: seq<Frame>, done: nat)
    requires Applying(h0, h, f, fs, at, left, done) && left != []
    ensures at in h && FrameOk(left[0]) && Interpreted(h, at)
  {
  }

  lemma AssocWords(a: seq<Word>, b: seq<Word>, c: seq<Word>)
    ensures a + (b + c) == a + b + c
  {
  }

  /** What a frame leaves on the stack when its function takes only its first `arity` arguments. */
  function Entered(fr: Frame, arity: nat): seq<Word>
    requires FrameOk(fr) && 0 < arity <= ArgCount(fr.k)
  {
    if arity == ArgCount(fr.k) then fr.words
        else fr.words[..arity] + [ApInfo(P(ArgCount(fr.k) - arity))] + fr.words[arity..]
  }

  lemma AllEntered(fr: Frame)
    requires FrameOk(fr)
    ensures Entered(fr, ArgCount(fr.k)) == fr.words
  {
  }

  lemma BcoFacts(h: Heap, f: Addr)
    requires HeapOk(h) && Interpreted(h, f)
    ensures h[f].Bco? ==> h[f].arity > 0 && SpineOf(h, f) == Spine(f, [], 0, h[f].arity)
    ensures h[f].Pap? ==>
              && 0 < h[f].arity <= h[h[f].fun].arity
              && SpineOf(h, f) == Spine(h[f].fun, h[f].payload, h[h[f].fun].arity - h[f].arity, h[f].arity)
  {
  }

  lemma OverflowApplied(h: Heap, f: Addr, fr: Frame, below: seq<Word>, live: seq<Word>)
    requires HeapOk(h) && FrameOk(fr) && Interpreted(h, f)
    ensures Applied(h, h, f, fr, below, StackOverflow, live)
  {
  }

  /** What ApplyArgs does, in terms of what the function had been applied to. */
  lemma IsApplied(h: Heap, h': Heap, f: Addr, fr: Frame, below: seq<Word>, r: Outcome, live: seq<Word>, fun: Addr,
      arity: nat, payload: seq<Word>)
    requires HeapOk(h) && HeapOk(h') && FrameOk(fr) && Interpreted(h, f) && (r.Run? || r.Return?)
    requires fun in h && h[fun].Bco? && 0 < arity <= h[fun].arity
             && SpineOf(h, f) == Spine(fun, payload, h[fun].arity - arity, arity)
    requires r.Run? ==>
              r.bco == fun && arity <= ArgCount(fr.k) && h' == h && live == payload + Entered(fr, arity) + below
    requires r.Return? ==>
               && arity > ArgCount(fr.k) && live == below && r.a !in h
               && h' == h[r.a := Pap(arity - ArgCount(fr.k), fun, payload + fr.words)]
    ensures Applied(h, h', f, fr, below, r, live)
  {
    hide HeapOk, Entered;
  }

  lemma LiveFrame(live: seq<Word>, fr: Frame, below: seq<Word>)
    requires live == [ApInfo(fr.k)] + fr.words + below
    ensures live != [] && live[0] == ApInfo(fr.k)
  {
  }

  lemma Skipped(fr: Frame, below: seq<Word>)
    ensures ([ApInfo(fr.k)] + fr.words + below)[1..] == fr.words + below
  {
  }

  lemma TopWords(fr: Frame, below: seq<Word>)
    requires FrameOk(fr)
    ensures (fr.words + below)[..WordCount(fr.k)] == fr.words && (fr.words + below)[WordCount(fr.k)..] == below
  {
  }

  lemma ShuffledFrame(fr: Frame, arity: nat, below: seq<Word>)
    requires FrameOk(fr) && 0 < arity < ArgCount(fr.k)
    ensures var live := fr.words + below;
            live[..arity] + [ApInfo(P(ArgCount(fr.k) - arity))] + live[arity..] == Entered(fr, arity) + below
  {
    assert (fr.words + below)[..arity] == fr.words[..arity] && (fr.words + below)[arity..] == fr.words[arity..] + below;
  }

  ghost predicate Grows(h: Heap, h': Heap) {
    forall a | a in h :: a in h' && h'[a] == h[a]
  }

  /** The result of one application, in terms of what the function had been applied to before. */
  ghost predicate Applied(h: Heap, h': Heap, f: Addr, fr: Frame, below: seq<Word>, r: Outcome, live: seq<Word>)
    requires FrameOk(fr) && Interpreted(h, f)
  {
    HeapOk(h) && HeapOk(h') && Grows(h, h') &&
    var s := SpineOf(h, f);
    match r
    case Run(bco) => s.need <= ArgCount(fr.k) && s.need > 0 && bco == s.bco && h' == h
        && live == s.words + Entered(fr, s.need) + below
    case Return(a) =>
      && s.need > ArgCount(fr.k) && live == below && Interpreted(h', a)
      && SpineOf(h', a) == Spine(s.bco, s.words + fr.words, s.have + ArgCount(fr.k), s.need - ArgCount(fr.k))
    case StackOverflow => true
    case Defer => false
  }
}
