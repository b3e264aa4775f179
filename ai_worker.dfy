/**
 * The background workers of ai_worker.py: the single-chapter stream, the
 * autopilot that plans volumes and chapters and then writes every chapter
 * that has no text yet, and the corrector. A worker changes the book only
 * through the main window's handlers; the model calls those handlers at the
 * point where the worker emits the signal, as the blocking hand-offs of the
 * source do. The language model is a `Backend` of total functions from a
 * request to its reply.
 */
module Workers {
  import opened Text
  import opened DataManager
  import opened Context
  import opened Delimiter
  import opened UiComponents
  import opened Window

  /**
   * A worker's `_is_cancelled` flag as the worker thread sees it: the
   * user's stop request lands just before check number `cancelAt`
   * (counting from 0), and that check and every later one see the flag set.
   */
  class CancelFlag {
    var polls: nat
    const cancelAt: nat

    constructor (cancelAt: nat)
      ensures polls == 0 && this.cancelAt == cancelAt
    {
      polls := 0;
      this.cancelAt := cancelAt;
    }

    /** One read of the flag. */
    method Check() returns (cancelled: bool)
      modifies this
      ensures polls == old(polls) + 1
      ensures cancelled <==> old(polls) >= cancelAt
    {
      cancelled := polls >= cancelAt;
      polls := polls + 1;
    }
  }

  /**
   * How many of `n` items a loop gets through when it reads the flag before
   * each item, starting with check number `k`: it stops at the first check
   * that sees the flag.
   */
  function Reached(k: nat, cancelAt: nat, n: nat): (m: nat)
    ensures m <= n
    ensures m < n ==> k + m >= cancelAt
    ensures m > 0 ==> k + m <= cancelAt
  {
    if k >= cancelAt then 0 else if n <= cancelAt - k then n else cancelAt - k
  }

  /** How many checks that loop makes: one per item it gets through, and the one that stops it. */
  function Checks(k: nat, cancelAt: nat, n: nat): nat {
    var m := Reached(k, cancelAt, n);
    if m < n then m + 1 else m
  }

  /** A streamed chunk: its reasoning part and its content part, empty when the chunk has none. */
  datatype Delta = Delta(reasoning: string, content: string)

  /** The content parts a stream forwards: the non-empty ones, in order. */
  function Pieces(ds: seq<Delta>): (r: seq<string>)
    ensures |r| <= |ds|
    ensures forall i :: 0 <= i < |r| ==> r[i] != ""
  {
    if |ds| == 0 then []
    else
      var last := ds[|ds| - 1].content;
      if last == "" then Pieces(ds[..|ds| - 1]) else Pieces(ds[..|ds| - 1]) + [last]
  }

  /** Everything a stream says, in order. */
  function Received(ds: seq<Delta>): string {
    if |ds| == 0 then "" else Received(ds[..|ds| - 1]) + ds[|ds| - 1].content
  }

  /** Everything a stream reasons, in order. */
  function Reasoning(ds: seq<Delta>): string {
    if |ds| == 0 then "" else Reasoning(ds[..|ds| - 1]) + ds[|ds| - 1].reasoning
  }

  /** The first `i + 1` items are the first `i` and item `i`. */
  lemma PrefixSnoc<T>(ds: seq<T>, i: nat)
    requires i < |ds|
    ensures ds[..i + 1][..i] == ds[..i] && ds[..i + 1][i] == ds[i]
  {
  }

  /** Leaving out the empty pieces loses nothing: the forwarded pieces make up the whole text. */
  lemma {:induction false} PiecesMakeReceived(ds: seq<Delta>)
    ensures Concat(Pieces(ds)) == Received(ds)
    decreases |ds|
  {
    if |ds| > 0 {
      var init := ds[..|ds| - 1];
      var last := ds[|ds| - 1].content;
      PiecesMakeReceived(init);
      if last != "" {
        ConcatSnoc(Pieces(init), last);
      }
    }
  }

  /** Chapter `(genV, genC)` is on screen in these window fields. */
  predicate ViewingIn(f: Fields) {
    f.currentV == f.genV && f.currentC == f.genC
  }

  /** The live stream held by these window fields. */
  function LiveIn(f: Fields): Live {
    Live(f.genBuffer, f.hitDelimiter, f.contentView)
  }

  /**
   * The window's fields after one chunk: `append_thinking` with its
   * reasoning, then `append_content` with its content, each only when it is
   * not empty.
   */
  function Forward(f: Fields, d: Delta): Fields {
    var f1 := if d.reasoning == "" then f
      else f.(reasoningBuffer := f.reasoningBuffer + d.reasoning,
        thinkingView := if ViewingIn(f) then f.thinkingView + d.reasoning else f.thinkingView);
    if d.content == "" then f1
    else
      var s := Feed(LiveIn(f1), d.content, ViewingIn(f1));
      f1.(genBuffer := s.buffer, hitDelimiter := s.hit, contentView := s.view)
  }

  /** The window's fields after every chunk, in order. */
  function ForwardAll(f: Fields, ds: seq<Delta>): Fields {
    if |ds| == 0 then f else Forward(ForwardAll(f, ds[..|ds| - 1]), ds[|ds| - 1])
  }

  /** One chunk's effect on the window, stated field by field. */
  lemma ForwardEffect(f: Fields, d: Delta)
    ensures var g := Forward(f, d);
      LiveIn(g) == (if d.content == "" then LiveIn(f) else Feed(LiveIn(f), d.content, ViewingIn(f))) &&
      g.reasoningBuffer == f.reasoningBuffer + d.reasoning &&
      g.thinkingView == (if ViewingIn(f) then f.thinkingView + d.reasoning else f.thinkingView) &&
      g.currentV == f.currentV && g.currentC == f.currentC && g.genV == f.genV && g.genC == f.genC &&
      g.isGenerating == f.isGenerating && g.isAutoPiloting == f.isAutoPiloting && g.isCorrecting == f.isCorrecting
  {
  }

  lemma FeedAllSnoc(s: Live, pieces: seq<string>, x: string, visible: bool)
    ensures FeedAll(s, pieces + [x], visible) == Feed(FeedAll(s, pieces, visible), x, visible)
  {
    assert (pieces + [x])[..|pieces|] == pieces;
  }

  /**
   * What forwarding a stream does to the window: the live stream is fed
   * exactly the non-empty content parts, the reasoning buffer grows by all
   * the reasoning (shown only when the chapter is on screen), and the
   * selection, the target and the mode flags stay as they were.
   */
  lemma {:induction false} ForwardAllEffect(f: Fields, ds: seq<Delta>)
    ensures var g := ForwardAll(f, ds);
      LiveIn(g) == FeedAll(LiveIn(f), Pieces(ds), ViewingIn(f)) &&
      g.reasoningBuffer == f.reasoningBuffer + Reasoning(ds) &&
      g.thinkingView == (if ViewingIn(f) then f.thinkingView + Reasoning(ds) else f.thinkingView) &&
      g.currentV == f.currentV && g.currentC == f.currentC && g.genV == f.genV && g.genC == f.genC &&
      g.isGenerating == f.isGenerating && g.isAutoPiloting == f.isAutoPiloting && g.isCorrecting == f.isCorrecting
    decreases |ds|
  {
    if |ds| > 0 {
      var init, d := ds[..|ds| - 1], ds[|ds| - 1];
      ForwardAllEffect(f, init);
      ForwardEffect(ForwardAll(f, init), d);
      if d.content != "" {
        FeedAllSnoc(LiveIn(f), Pieces(init), d.content, ViewingIn(f));
      }
      assert Reasoning(ds) == Reasoning(init) + d.reasoning;
    }
  }

  /** One chunk of a stream: `append_thinking` with its reasoning, then `append_content` with its content, each when not empty. */
  method Deliver(w: MainWindow, d: Delta)
    modifies w
    ensures w.Snapshot() == Forward(old(w.Snapshot()), d)
  {
    if d.reasoning != "" {
      w.AppendThinking(d.reasoning);
    }
    if d.content != "" {
      w.AppendContent(d.content);
    }
  }

  /**
   * `AIWorker`: streams one reply into the main window and then ends the
   * generation. `response` is the model's reply to the prompt the window
   * built.
   */
  class AIWorker {
    const window: MainWindow
    const flag: CancelFlag
    const response: seq<Delta>

    constructor (window: MainWindow, flag: CancelFlag, response: seq<Delta>)
      ensures this.window == window && this.flag == flag && this.response == response
    {
      this.window := window;
      this.flag := flag;
      this.response := response;
    }

    /**
     * The delta loop of `run`: the flag is read before each chunk, and the
     * chunk goes to `append_thinking` and `append_content`.
     */
    method Stream() returns (n: nat)
      modifies flag, window
      ensures n == Reached(old(flag.polls), flag.cancelAt, |response|)
      ensures flag.polls == old(flag.polls) + Checks(old(flag.polls), flag.cancelAt, |response|)
      ensures window.Snapshot() == ForwardAll(old(window.Snapshot()), response[..n])
    {
      var i := 0;
      while i < |response|
        invariant i <= |response|
        invariant flag.polls == old(flag.polls) + i
        invariant i > 0 ==> old(flag.polls) + i <= flag.cancelAt
        invariant window.Snapshot() == ForwardAll(old(window.Snapshot()), response[..i])
      {
        var stop := flag.Check();
        if stop {
          break;
        }
        PrefixSnoc(response, i);
        Deliver(window, response[i]);
        i := i + 1;
      }
      n := i;
    }

    /**
     * `run`: the stream, then `generation_finished`, whether the stream ran
     * out or was stopped: a stopped generation keeps what it received.
     */
    method Run() returns (ok: bool)
      modifies flag, window, window.project
      ensures var n := Reached(old(flag.polls), flag.cancelAt, |response|);
        var v, c := old(window.genV), old(window.genC);
        ChapterAt(old(window.project.meta.volumes), v, c) ==>
          var vol := old(window.project.meta.volumes[v]);
          ok && ChapterText(window.project.store, vol.name, vol.chapters[c].name) ==
            SplitReply(old(window.genBuffer) + Received(response[..n])).content
      ensures ok ==> !window.isGenerating && window.genV == -1 && window.genC == -1
    {
      var n := Stream();
      ForwardAllEffect(old(window.Snapshot()), response[..n]);
      FeedAllBuffer(old(window.Stream()), Pieces(response[..n]), old(window.Viewing()));
      PiecesMakeReceived(response[..n]);
      ok := window.GenerationFinished();
    }
  }
}
