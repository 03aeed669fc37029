/** Thread stacks: words, frames, and chains of stack chunks (StgStack, threadStackUnderflow in rts/Threads.c). */
module Stacks {
  import opened Options

  /** The frames that the runtime treats specially, and all others with their size. */
  datatype Info =
    | Update | Underflow | Stop | Catch | Atomically | CatchStm | CatchRetry | Prompt
    | UnmaskRet | MaskRet | MaskUninterruptibleRet
    | Other(id: nat, extra: nat)   // a frame of 1 + extra words

  const ENTER := Other(0, 1)
  const AP_PV := Other(1, 1)
  const RET_P := Other(3, 1)

  /** stack_frame_sizeW, without profiling headers. */
  function SizeOf(i: Info): (n: nat)
    ensures n >= 1
  {
    match i
    case Update | Underflow | Catch | Prompt => 2
    case Atomically | CatchStm => 3
    case CatchRetry => 4
    case Stop | UnmaskRet | MaskRet | MaskUninterruptibleRet => 1
    case Other(_, extra) => 1 + extra
  }

  predicate Terminal(i: Info) { i == Underflow || i == Stop }

  /** A word of a stack; `Static` are closures that are part of the program. */
  datatype Word = Ret(info: Info) | Ptr(addr: nat) | Static(id: nat) | NextChunk(stack: StgStack) | Raw(bits: nat)

  const DUMMY_RET := Static(0)
  const NO_TREC := Static(1)

  /** One chunk: `words` from `sp` on are live. */
  class StgStack {
    const words: array<Word>
    var sp: nat

    constructor (words: array<Word>, sp: nat)
      ensures this.words == words && this.sp == sp
    {
      this.words, this.sp := words, sp;
    }
  }

  // ----- Words as frames -----

  predicate HeadFrame(ws: seq<Word>) {
    ws != [] && ws[0].Ret? && SizeOf(ws[0].info) <= |ws|
  }

  /** Whole frames, none of which ends a chunk. */
  ghost predicate Frames(ws: seq<Word>)
    decreases |ws|
  {
    ws == [] || (HeadFrame(ws) && !Terminal(ws[0].info) && Frames(ws[SizeOf(ws[0].info)..]))
  }

  /** The live words of a chunk: whole frames, of which exactly the last ends the chunk, with an underflow frame that
      leads to `next` if there is a next chunk, and with the stop frame if there is none. */
  ghost predicate ChunkOk(ws: seq<Word>, next: Option<StgStack>)
    decreases |ws|
  {
    HeadFrame(ws) &&
    if ws[0].info == Underflow then |ws| == 2 && next.Some? && ws[1] == NextChunk(next.value)
    else if ws[0].info == Stop then |ws| == 1 && next.None?
    else ChunkOk(ws[SizeOf(ws[0].info)..], next)
  }

  /** How a chunk that is not the last ends. */
  lemma {:induction false} ChunkEnds(ws: seq<Word>, next: Option<StgStack>)
    requires ChunkOk(ws, next)
    ensures next.Some? ==> |ws| >= 2 && ws[|ws| - 2] == Ret(Underflow) && ws[|ws| - 1] == NextChunk(next.value)
    ensures next.Some? ==> ChunkOk(ws[|ws| - 2..], next)
    decreases |ws|
  {
    if ws[0].info != Underflow && ws[0].info != Stop {
      var n := SizeOf(ws[0].info);
      ChunkEnds(ws[n..], next);
      assert next.Some? ==> ws[n..][|ws| - n - 2..] == ws[|ws| - 2..];
    } else {
      assert ws[0..] == ws;
    }
  }

  /** A whole stack: frames, of which exactly the last is the stop frame, and no underflow frames. */
  ghost predicate StackOk(ws: seq<Word>)
    decreases |ws|
  {
    HeadFrame(ws) &&
    if ws[0].info == Stop then |ws| == 1 else ws[0].info != Underflow && StackOk(ws[SizeOf(ws[0].info)..])
  }

  /** What a chunk contributes to the stack: its underflow frame is not part of it. */
  function Body(ws: seq<Word>): seq<Word> {
    if |ws| < 2 then [] else ws[..|ws| - 2]
  }

  lemma BodySize(ws: seq<Word>)
    requires |ws| >= 2
    ensures |Body(ws)| == |ws| - 2
  {
  }

  lemma BodyDrop(ws: seq<Word>, n: nat)
    requires n + 2 <= |ws|
    ensures Body(ws)[..n] == ws[..n] && Body(ws)[n..] == Body(ws[n..])
  {
  }

  /** The stack that a chain of chunks stands for. */
  ghost function Join(ls: seq<seq<Word>>): seq<Word> {
    if ls == [] then [] else if |ls| == 1 then ls[0] else Body(ls[0]) + Join(ls[1..])
  }

  /** The words of the first `i` chunks. */
  ghost function Bodies(ls: seq<seq<Word>>, i: nat): seq<Word>
    requires i <= |ls|
  {
    if i == 0 then [] else Bodies(ls, i - 1) + Body(ls[i - 1])
  }

  lemma {:induction false} JoinSplit(ls: seq<seq<Word>>, i: nat)
    requires i < |ls|
    ensures Join(ls) == Bodies(ls, i) + Join(ls[i..])
    decreases i
  {
    if i == 0 {
      assert ls[0..] == ls;
    } else {
      JoinSplit(ls, i - 1);
      assert ls[i - 1..][1..] == ls[i..];
      assert Join(ls[i - 1..]) == Body(ls[i - 1]) + Join(ls[i..]);
    }
  }

  // ----- Chains of chunks -----

  ghost function Live(c: StgStack): seq<Word>
    reads c, c.words
  {
    if c.sp <= c.words.Length then c.words[c.sp..] else []
  }

  ghost function Arrays(cs: seq<StgStack>): set<array<Word>> {
    set c | c in cs :: c.words
  }

  ghost predicate InBounds(cs: seq<StgStack>)
    reads cs`sp
  {
    forall i | 0 <= i < |cs| :: cs[i].sp <= cs[i].words.Length
  }

  ghost function Lives(cs: seq<StgStack>): (ls: seq<seq<Word>>)
    reads cs, Arrays(cs)
    ensures |ls| == |cs| && forall i | 0 <= i < |cs| :: ls[i] == Live(cs[i])
  {
    seq(|cs|, i requires 0 <= i < |cs| reads cs, Arrays(cs) => Live(cs[i]))
  }

  ghost function After(cs: seq<StgStack>, i: nat): Option<StgStack> {
    if i + 1 < |cs| then Some(cs[i + 1]) else None
  }

  /** A well-formed chain: `cs[0]` is on top, each chunk leads to the next, and the last ends the stack. */
  ghost predicate Chain(cs: seq<StgStack>)
    reads cs, Arrays(cs)
  {
    cs != [] && InBounds(cs) && Separate(cs) && Links(cs, Lives(cs))
  }

  ghost predicate Separate(cs: seq<StgStack>) {
    forall i, j | 0 <= i < j < |cs| :: cs[i] != cs[j] && cs[i].words != cs[j].words
  }

  /** Each chunk, with these live words, leads to the next. */
  ghost predicate Links(cs: seq<StgStack>, ls: seq<seq<Word>>) {
    |cs| == |ls| && forall i | 0 <= i < |cs| :: ChunkOk(ls[i], After(cs, i))
  }

  lemma LinksTail(cs: seq<StgStack>, ls: seq<seq<Word>>)
    requires Links(cs, ls) && |cs| > 1
    ensures Links(cs[1..], ls[1..])
  {
    hide ChunkOk;
    assert forall i | 0 <= i < |cs| - 1 :: After(cs[1..], i) == After(cs, i + 1);
  }

  lemma LinksTop(cs: seq<StgStack>, ls: seq<seq<Word>>, ws: seq<Word>)
    requires Links(cs, ls) && cs != [] && ChunkOk(ws, After(cs, 0))
    ensures Links(cs, ls[0 := ws])
  {
    hide ChunkOk;
  }

  /** The words of all chunks but the top one are as before. */
  lemma LivesTail(cs: seq<StgStack>, ls: seq<seq<Word>>)
    requires InBounds(cs) && |cs| == |ls| > 0 && forall i | 1 <= i < |cs| :: Live(cs[i]) == ls[i]
    ensures Lives(cs[1..]) == ls[1..] && InBounds(cs[1..])
  {
  }

  /** The stack itself, chunk boundaries apart. */
  ghost function Flat(cs: seq<StgStack>): seq<Word>
    reads cs, Arrays(cs)
  {
    Join(Lives(cs))
  }

  /** Joining a well-formed chain gives a whole stack. */
  lemma ChainStackOk(cs: seq<StgStack>)
    requires Chain(cs)
    ensures StackOk(Flat(cs))
  {
    JoinStackOk(cs, Lives(cs), 0);
    assert Lives(cs)[0..] == Lives(cs);
  }

  lemma {:induction false} JoinStackOk(cs: seq<StgStack>, ls: seq<seq<Word>>, i: nat)
    requires i < |cs| == |ls| && forall k | 0 <= k < |cs| :: ChunkOk(ls[k], After(cs, k))
    ensures StackOk(Join(ls[i..]))
    decreases |cs| - i
  {
    if i + 1 == |cs| {
      ChunkStackOk(ls[i], None, []);
    } else {
      JoinStackOk(cs, ls, i + 1);
      assert ls[i..][1..] == ls[i + 1..];
      ChunkStackOk(ls[i], After(cs, i), Join(ls[i + 1..]));
    }
  }

  lemma {:induction false} ChunkStackOk(ws: seq<Word>, next: Option<StgStack>, rest: seq<Word>)
    requires ChunkOk(ws, next) && (next.Some? ==> StackOk(rest))
    ensures StackOk(if next.Some? then Body(ws) + rest else ws)
    decreases |ws|
  {
    if ws[0].info == Underflow {
      assert Body(ws) + rest == rest;
    } else if ws[0].info != Stop {
      var n := SizeOf(ws[0].info);
      ChunkStackOk(ws[n..], next, rest);
      if next.Some? {
        ChunkEnds(ws[n..], next);
        BodyHead(ws, n, rest);
      }
    }
  }

  lemma BodyHead(ws: seq<Word>, n: nat, rest: seq<Word>)
    requires 1 <= n && n + 2 <= |ws|
    ensures var all := Body(ws) + rest; n <= |all| && all[0] == ws[0] && all[n..] == Body(ws[n..]) + rest
  {
    BodyDrop(ws, n);
    assert (Body(ws) + rest)[n..] == Body(ws)[n..] + rest;
  }

  // ----- Walking along a chain -----

  /** The stack from word `off` of chunk `ci` on, and what comes before. */
  ghost function JoinFrom(ls: seq<seq<Word>>, ci: nat, off: nat): seq<Word>
    requires ci < |ls| && off <= |ls[ci]|
  {
    if ci + 1 == |ls| then ls[ci][off..] else Body(ls[ci][off..]) + Join(ls[ci + 1..])
  }

  ghost function Seen(ls: seq<seq<Word>>, ci: nat, off: nat): seq<Word>
    requires ci < |ls| && off <= |ls[ci]|
  {
    Bodies(ls, ci) + ls[ci][..off]
  }

  lemma SeenWhole(ls: seq<seq<Word>>, ci: nat, off: nat)
    requires ci < |ls| && off <= |ls[ci]| && (ci + 1 < |ls| ==> off + 2 <= |ls[ci]|)
    ensures Join(ls) == Seen(ls, ci, off) + JoinFrom(ls, ci, off)
  {
    hide Body, Join, Bodies;
    JoinSplit(ls, ci);
    JoinHead(ls, ci);
    if ci + 1 == |ls| {
      Regroup(Bodies(ls, ci), ls[ci], off, []);
    } else {
      BodyDrop(ls[ci], off);
      BodySize(ls[ci]);
      Regroup(Bodies(ls, ci), Body(ls[ci]), off, Join(ls[ci + 1..]));
    }
  }

  lemma Regroup(a: seq<Word>, b: seq<Word>, n: nat, c: seq<Word>)
    requires n <= |b|
    ensures a + (b + c) == (a + b[..n]) + (b[n..] + c)
    ensures c == [] ==> b + c == b && b[n..] + c == b[n..]
  {
  }

  lemma JoinHead(ls: seq<seq<Word>>, ci: nat)
    requires ci < |ls|
    ensures Join(ls[ci..]) == if ci + 1 == |ls| then ls[ci] else Body(ls[ci]) + Join(ls[ci + 1..])
  {
    assert ls[ci..][1..] == ls[ci + 1..];
  }

  /** Going on to the next chunk. */
  lemma NextChunkSame(ls: seq<seq<Word>>, ci: nat, off: nat)
    requires ci + 1 < |ls| && off + 2 == |ls[ci]|
    ensures JoinFrom(ls, ci, off) == JoinFrom(ls, ci + 1, 0) && Seen(ls, ci, off) == Seen(ls, ci + 1, 0)
  {
    var next := ls[ci + 1..];
    assert Body(ls[ci][off..]) == [] && ls[ci + 1][0..] == ls[ci + 1] && ls[ci + 1][..0] == [];
    assert Body(ls[ci]) == ls[ci][..off];
    if ci + 2 < |ls| {
      assert next[1..] == ls[ci + 2..];
    }
  }

  /** Going on to the next frame. */
  lemma NextFrame(ls: seq<seq<Word>>, ci: nat, off: nat, n: nat)
    requires ci < |ls| && off + n <= |ls[ci]| && (ci + 1 < |ls| ==> off + n + 2 <= |ls[ci]|)
    ensures var j := JoinFrom(ls, ci, off);
            n <= |j| && j[..n] == ls[ci][off..off + n] && j[n..] == JoinFrom(ls, ci, off + n)
    ensures Seen(ls, ci, off + n) == Seen(ls, ci, off) + ls[ci][off..off + n]
  {
    hide Body, Join, Bodies;
    var rest := ls[ci][off..];
    Split(ls[ci], off, n);
    if ci + 1 < |ls| {
      BodyDrop(rest, n);
      BodySize(rest);
      DropOfAppend(Body(rest), Join(ls[ci + 1..]), n);
    }
  }

  lemma Split(ws: seq<Word>, off: nat, n: nat)
    requires off + n <= |ws|
    ensures ws[off..][n..] == ws[off + n..] && ws[off..][..n] == ws[off..off + n]
    ensures ws[..off + n] == ws[..off] + ws[off..off + n]
  {
  }

  lemma DropOfAppend(a: seq<Word>, b: seq<Word>, n: nat)
    requires n <= |a|
    ensures (a + b)[n..] == a[n..] + b && (a + b)[..n] == a[..n]
  {
  }

  /** How much of a chunk is left at an ordinary frame. */
  lemma Room(ws: seq<Word>, next: Option<StgStack>)
    requires ChunkOk(ws, next) && !Terminal(ws[0].info)
    ensures SizeOf(ws[0].info) + (if next.Some? then 2 else 1) <= |ws|
  {
    ChunkEnds(ws[SizeOf(ws[0].info)..], next);
  }

  lemma FrameParts(cs: seq<StgStack>, ls: seq<seq<Word>>, ci: nat, off: nat, n: nat)
    requires ci < |cs| == |ls| && off <= |ls[ci]| && ChunkOk(ls[ci][off..], After(cs, ci))
    requires !Terminal(ls[ci][off..][0].info) && n == SizeOf(ls[ci][off..][0].info)
    ensures off + n + (if ci + 1 < |ls| then 2 else 1) <= |ls[ci]| && ChunkOk(ls[ci][off + n..], After(cs, ci))
    ensures ls[ci][off].Ret? && ls[ci][off..][..n] == ls[ci][off..off + n]
            && ls[ci][off..][0] == ls[ci][off] == ls[ci][off..off + n][0]
  {
    var ws := ls[ci][off..];
    Room(ws, After(cs, ci));
    assert ws[n..] == ls[ci][off + n..];
  }

  lemma SeenLength(ls: seq<seq<Word>>, ci: nat, off: nat)
    requires ci < |ls| && off <= |ls[ci]|
    ensures |Seen(ls, ci, off)| == |Bodies(ls, ci)| + off
  {
  }

  /** The elements from `i` on. */
  ghost function Tail<T>(s: seq<T>, i: nat): seq<T>
    requires i <= |s|
  {
    s[i..]
  }

  lemma TailFacts<T>(s: seq<T>, i: nat)
    requires i < |s|
    ensures |Tail(s, i)| == |s| - i && Tail(s, i)[0] == s[i] && s[i] in s
    ensures Tail(s, i)[1..] == Tail(s, i + 1) && Tail(s, 0) == s
    ensures i + 1 < |s| ==> Tail(s, i)[1] == s[i + 1]
  {
  }

  /** The chain from word `off` of chunk `ci` on. */
  ghost function Suffix(ls: seq<seq<Word>>, ci: nat, off: nat): seq<seq<Word>>
    requires ci < |ls| && off <= |ls[ci]|
  {
    [ls[ci][off..]] + ls[ci + 1..]
  }

  lemma SuffixFacts(ls: seq<seq<Word>>, ci: nat, off: nat)
    requires ci < |ls| && off <= |ls[ci]|
    ensures Join(Suffix(ls, ci, off)) == JoinFrom(ls, ci, off)
    ensures Suffix(ls, ci, off) != [] && Suffix(ls, ci, off)[0] == ls[ci][off..]
    ensures Tail(ls, ci) != [] && Tail(ls, ci)[0] == ls[ci] && Tail(ls, ci)[0 := ls[ci][off..]] == Suffix(ls, ci, off)
  {
    assert Suffix(ls, ci, off)[1..] == ls[ci + 1..];
  }

  lemma SuffixStep(ls: seq<seq<Word>>, ci: nat, off: nat, n: nat)
    requires ci < |ls| && off + n <= |ls[ci]|
    ensures Suffix(ls, ci, off)[0 := ls[ci][off..][n..]] == Suffix(ls, ci, off + n)
            && ls[ci][off..][n..] == ls[ci][off + n..]
  {
    assert ls[ci][off..][n..] == ls[ci][off + n..];
  }

  lemma WholeArray(a: array<Word>)
    ensures a[..a.Length] == a[..]
  {
  }

  // ----- Asynchronous exception masking -----

  /** TSO_BLOCKEX and TSO_INTERRUPTIBLE. */
  datatype Masking = Unmasked | Interruptible | Uninterruptible

  predicate IsMaskFrame(i: Info) { i == UnmaskRet || i == MaskRet || i == MaskUninterruptibleRet }

  /** The state that returning to a mask frame restores. */
  function Restored(i: Info): Masking
    requires IsMaskFrame(i)
  {
    match i
    case UnmaskRet => Unmasked
    case MaskRet => Interruptible
    case MaskUninterruptibleRet => Uninterruptible
  }

  /** The frame that restores a state. */
  function FrameFor(m: Masking): (i: Info)
    ensures IsMaskFrame(i) && Restored(i) == m
  {
    match m
    case Unmasked => UnmaskRet
    case Interruptible => MaskRet
    case Uninterruptible => MaskUninterruptibleRet
  }

  /** The masking state after returning through all the frames of `ws`, or unwinding past them. */
  ghost function ReturnThrough(ws: seq<Word>, m: Masking): Masking
    decreases |ws|
  {
    if !HeadFrame(ws) then m
    else ReturnThrough(ws[SizeOf(ws[0].info)..], if IsMaskFrame(ws[0].info) then Restored(ws[0].info) else m)
  }

  lemma FramesStep(ws: seq<Word>)
    requires Frames(ws) && ws != []
    ensures HeadFrame(ws) && !Terminal(ws[0].info) && Frames(ws[SizeOf(ws[0].info)..])
  {
  }

  lemma FramesCons(ws: seq<Word>)
    requires HeadFrame(ws) && !Terminal(ws[0].info) && Frames(ws[SizeOf(ws[0].info)..])
    ensures Frames(ws)
  {
  }

  lemma HeadOfAppend(a: seq<Word>, b: seq<Word>)
    requires HeadFrame(a)
    ensures HeadFrame(a + b) && (a + b)[0] == a[0]
    ensures var n := SizeOf(a[0].info); (a + b)[n..] == a[n..] + b
  {
  }

  lemma {:induction false} FramesSnoc(a: seq<Word>, b: seq<Word>)
    requires Frames(a) && HeadFrame(b) && |b| == SizeOf(b[0].info) && !Terminal(b[0].info)
    ensures Frames(a + b)
    decreases |a|
  {
    if a == [] {
      assert a + b == b && b[SizeOf(b[0].info)..] == [];
    } else {
      var n := SizeOf(a[0].info);
      assert (a + b)[n..] == a[n..] + b;
      FramesSnoc(a[n..], b);
    }
  }

  lemma {:induction false} ReturnThroughAppend(a: seq<Word>, b: seq<Word>, m: Masking)
    requires Frames(a)
    ensures ReturnThrough(a + b, m) == ReturnThrough(b, ReturnThrough(a, m))
    decreases |a|
  {
    if a == [] {
      assert a + b == b;
    } else {
      var n := SizeOf(a[0].info);
      assert (a + b)[n..] == a[n..] + b;
      ReturnThroughAppend(a[n..], b, if IsMaskFrame(a[0].info) then Restored(a[0].info) else m);
    }
  }

  // ----- Frames inside a stack -----

  /** `k` is where a frame of `ws` starts. */
  ghost predicate FrameAt(ws: seq<Word>, k: nat) {
    k < |ws| && Frames(ws[..k]) && HeadFrame(ws[k..])
  }

  lemma PutBack(ws: seq<Word>, k: nat)
    requires HeadFrame(ws) && !Terminal(ws[0].info) && FrameAt(ws[SizeOf(ws[0].info)..], k)
    ensures var n := SizeOf(ws[0].info); FrameAt(ws, n + k) && ws[n..][k..] == ws[n + k..]
  {
    hide Terminal, SizeOf;
    var n := SizeOf(ws[0].info);
    Slices(ws, n, k);
    FramesCons(ws[..n + k]);
  }

  lemma Slices(ws: seq<Word>, n: nat, k: nat)
    requires 1 <= n && n + k < |ws|
    ensures ws[..n + k][n..] == ws[n..][..k] && ws[n..][k..] == ws[n + k..] && ws[..n + k][0] == ws[0]
  {
  }

  lemma PastHead(ws: seq<Word>, j: nat)
    requires FrameAt(ws, j) && j > 0
    ensures HeadFrame(ws) && SizeOf(ws[0].info) <= j && FrameAt(ws[SizeOf(ws[0].info)..], j - SizeOf(ws[0].info))
    ensures ws[SizeOf(ws[0].info)..][j - SizeOf(ws[0].info)..] == ws[j..]
  {
    var n := SizeOf(ws[0].info);
    assert HeadFrame(ws[..j]) && ws[..j][n..] == ws[n..][..j - n] && ws[n..][j - n..] == ws[j..];
  }

  lemma HeadAt(ws: seq<Word>)
    requires HeadFrame(ws)
    ensures FrameAt(ws, 0)
  {
    assert ws[0..] == ws;
  }

  // ----- Threads -----

  datatype WhatNext = RunGHC | Killed

  /** A thread; `trec` are its current transaction and the transactions that enclose it. */
  class StgTSO {
    var whatNext: WhatNext
    var trec: seq<nat>
    var stackobj: StgStack
    var totStackSize: int
    var blockex: bool
    var interruptible: bool
    ghost var chunks: seq<StgStack>

    constructor (stack: StgStack, blockex: bool, interruptible: bool)
      ensures stackobj == stack && chunks == [stack] && this.blockex == blockex && this.interruptible == interruptible
    {
      whatNext, trec := RunGHC, [];
      stackobj, chunks, totStackSize := stack, [stack], stack.words.Length;
      this.blockex, this.interruptible := blockex, interruptible;
    }

    ghost predicate Valid()
      reads this`stackobj, this`chunks, chunks, Arrays(chunks)
    {
      Chain(chunks) && stackobj == chunks[0]
    }

    ghost function Masks(): Masking
      reads this`blockex, this`interruptible
    {
      if !blockex then Unmasked else if interruptible then Interruptible else Uninterruptible
    }

    /** The top `n` words are values being returned; under them the chain is well formed. */
    ghost predicate Returning(n: nat)
      reads this`stackobj, this`chunks, chunks, Arrays(chunks)
    {
      && chunks != [] && InBounds(chunks) && Separate(chunks) && stackobj == chunks[0]
      && n <= |Live(chunks[0])| && Links(chunks, Lives(chunks)[0 := Live(chunks[0])[n..]])
    }

    lemma NothingReturned()
      ensures Valid() <==> Returning(0)
    {
      hide Links;
      if chunks != [] {
        assert Lives(chunks)[0 := Live(chunks[0])[0..]] == Lives(chunks);
      }
    }

    /** The chunk that return values are copied to, when there are any. */
    ghost function Receiver(): set<StgStack>
      requires |chunks| > 1
      reads this`chunks, chunks
    {
      if chunks[0].sp + 2 == chunks[0].words.Length then {} else {chunks[1]}
    }

    ghost function ReceiverWords(): set<array<Word>>
      requires |chunks| > 1
      reads this`chunks, chunks
    {
      set c | c in Receiver() :: c.words
    }

    /** threadStackUnderflow: the next chunk takes over, with the words above the underflow frame as return values; the
        stack as a whole is what it was. None when they do not fit. */
    method ThreadStackUnderflow() returns (r: Option<nat>)
      requires |chunks| > 1 && chunks[0].sp + 2 <= chunks[0].words.Length
      requires Returning(chunks[0].words.Length - 2 - chunks[0].sp)
      modifies this`stackobj, this`totStackSize, this`chunks, stackobj`sp, Receiver()`sp, ReceiverWords()
      ensures var n := old(chunks[0].words.Length - 2 - chunks[0].sp);
              r == if n <= old(chunks[1].sp) then Some(n) else None
      ensures r.Some? ==> chunks == old(chunks)[1..] && Returning(r.value) && Flat(chunks) == old(Flat(chunks))
      ensures r.Some? ==> Lives(chunks) == Returned(old(Lives(chunks)), r.value)
      ensures r.Some? ==> totStackSize == old(totStackSize) - old(stackobj).words.Length
      ensures r.Some? ==> old(stackobj).sp == old(stackobj).words.Length
    {
      hide ChunkOk, Links, Join, Returned, Returning, Separate, Flat, Lives;
      ghost var cs, ls := chunks, Lives(chunks);
      BeforeUnderflow(this, ls, |ls[0]| - 2);
      var oldStack := stackobj;
      var frame := oldStack.words.Length - 2;
      var retvals := frame - oldStack.sp;
      var newStack := oldStack.words[frame + 1].stack;
      if retvals != 0 {
        if newStack.sp < retvals {
          return None;
        }
        CopyReturnValues(oldStack, newStack, retvals);
      }
      stackobj, chunks := newStack, chunks[1..];
      oldStack.sp := oldStack.words.Length;
      totStackSize := totStackSize - oldStack.words.Length;
      AfterUnderflow(this, cs, ls, retvals);
      return Some(retvals);
    }
  }

  /** The words above the underflow frame of `from` go on top of `to`. */
  method CopyReturnValues(from: StgStack, to: StgStack, retvals: nat)
    requires from.words != to.words && from != to && from.sp + retvals <= from.words.Length
    requires retvals <= to.sp <= to.words.Length
    modifies to`sp, to.words
    ensures Live(to) == from.words[from.sp..from.sp + retvals] + old(Live(to))
  {
    forall i | 0 <= i < retvals {
      to.words[to.sp - retvals + i] := from.words[from.sp + i];
    }
    to.sp := to.sp - retvals;
    assert to.words[to.sp..to.sp + retvals] == from.words[from.sp..from.sp + retvals];
    assert to.words[to.sp + retvals..] == old(Live(to));
    assert Live(to) == to.words[to.sp..to.sp + retvals] + to.words[to.sp + retvals..];
  }

  /** The live words of the chunks when the first `n` words of the top one have gone to the next. */
  ghost function Returned(ls: seq<seq<Word>>, n: nat): seq<seq<Word>>
    requires |ls| > 1 && n <= |ls[0]|
  {
    [ls[0][..n] + ls[1]] + ls[2..]
  }

  lemma NoneReturned(ls: seq<seq<Word>>)
    requires |ls| > 1
    ensures Returned(ls, 0) == ls[1..]
  {
    assert ls[0][..0] + ls[1] == ls[1];
  }

  /** A chunk of which only the underflow frame is left returns no values. */
  lemma OnlyUnderflow(tso: StgTSO)
    requires tso.Valid() && |tso.chunks| > 1 && tso.chunks[0].sp + 2 == tso.chunks[0].words.Length
    ensures tso.Returning(0) && tso.Receiver() == {} && tso.ReceiverWords() == {}
    ensures Returned(Lives(tso.chunks), 0) == Lives(tso.chunks)[1..]
  {
    hide Links;
    tso.NothingReturned();
    NoneReturned(Lives(tso.chunks));
  }

  lemma BeforeUnderflow(tso: StgTSO, ls: seq<seq<Word>>, n: nat)
    requires ls == Lives(tso.chunks) && |tso.chunks| > 1 && tso.chunks[0].sp + n + 2 == tso.chunks[0].words.Length
    requires tso.Returning(n)
    ensures tso.stackobj == tso.chunks[0] && Separate(tso.chunks) && |ls| == |tso.chunks|
    ensures Flat(tso.chunks) == Join(ls)
    ensures |ls[0]| == n + 2 && Links(tso.chunks, ls[0 := ls[0][n..]])
    ensures tso.chunks[0] != tso.chunks[1] && tso.chunks[0].words != tso.chunks[1].words
    ensures tso.chunks[1].sp <= tso.chunks[1].words.Length
    ensures tso.stackobj.words[tso.stackobj.words.Length - 1] == NextChunk(tso.chunks[1])
    ensures tso.stackobj.words[tso.stackobj.sp..tso.stackobj.sp + n] == ls[0][..n]
    ensures forall i | 0 <= i < |ls| :: ls[i] == Live(tso.chunks[i]) && tso.chunks[i].sp <= tso.chunks[i].words.Length
    ensures forall i | 2 <= i < |ls| :: tso.chunks[i] !in {tso.chunks[0], tso.chunks[1]}
                                        && tso.chunks[i].words != tso.chunks[1].words
  {
    hide ChunkOk;
    TopUnderflow(tso.chunks, ls, n);
  }

  lemma AfterUnderflow(tso: StgTSO, cs: seq<StgStack>, ls: seq<seq<Word>>, n: nat)
    requires |cs| == |ls| > 1 && tso.chunks == cs[1..] && tso.stackobj == cs[1]
    requires Separate(cs) && |ls[0]| == n + 2 && Links(cs, ls[0 := ls[0][n..]])
    requires Live(cs[1]) == ls[0][..n] + ls[1] && (forall i | 2 <= i < |cs| :: Live(cs[i]) == ls[i])
    requires forall i | 0 <= i < |cs| :: cs[i].sp <= cs[i].words.Length
    ensures tso.Returning(n) && Lives(tso.chunks) == Returned(ls, n) && Flat(tso.chunks) == Join(ls)
  {
    hide ChunkOk, Links, Join;
    LinksReturned(cs, ls, n);
    JoinReturned(cs, ls, n);
    assert Lives(tso.chunks) == Returned(ls, n);
  }

  lemma LinksReturned(cs: seq<StgStack>, ls: seq<seq<Word>>, n: nat)
    requires |ls| > 1 && n <= |ls[0]| && Links(cs, ls[0 := ls[0][n..]])
    ensures Links(cs[1..], Returned(ls, n)[0 := Returned(ls, n)[0][n..]])
  {
    hide ChunkOk;
    LinksTail(cs, ls[0 := ls[0][n..]]);
    assert Returned(ls, n)[0 := Returned(ls, n)[0][n..]] == ls[0 := ls[0][n..]][1..];
  }

  /** Taking return values to the next chunk does not change the stack as a whole. */
  lemma JoinReturned(cs: seq<StgStack>, ls: seq<seq<Word>>, n: nat)
    requires |ls| > 1 && |ls[0]| == n + 2 && Links(cs, ls[0 := ls[0][n..]])
    ensures Join(Returned(ls, n)) == Join(ls)
  {
    hide ChunkOk;
    assert ChunkOk(ls[1], After(cs, 1));
    ChunkEnds(ls[1], After(cs, 1));
    assert Body(ls[0]) == ls[0][..n] && Returned(ls, n)[1..] == ls[1..][1..];
    assert |ls| > 2 ==> Body(ls[0][..n] + ls[1]) == ls[0][..n] + Body(ls[1]);
  }

  lemma TsoFacts(tso: StgTSO, ls: seq<seq<Word>>)
    requires tso.Valid() && ls == Lives(tso.chunks)
    ensures |tso.chunks| == |ls| > 0 && tso.stackobj == tso.chunks[0]
  {
  }

  lemma TopUnderflow(cs: seq<StgStack>, ls: seq<seq<Word>>, n: nat)
    requires |ls| > 1 && |ls[0]| == n + 2 && Links(cs, ls[0 := ls[0][n..]])
    ensures ls[0][n + 1] == NextChunk(cs[1])
  {
    ChunkEnds(ls[0][n..], After(cs, 0));
  }
}
