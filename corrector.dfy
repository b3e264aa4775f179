/**
 * The corrector of ai_worker.py (`CorrectionWorker`): one structured
 * request per pass, the typo and setting repairs with their fallbacks, the
 * correction of a single chapter, and the whole-book run that audits every
 * synopsis, repairs the chapters the audit flags and then proofreads every
 * chapter. Like the other workers it changes the book only through the
 * main window's handlers.
 */
module Corrector {
  import opened Text
  import opened DataManager
  import opened Context
  import opened Window
  import opened Workers

  /**
   * One chapter the audit flags: its indices as the reply gives them (None
   * when absent or not an integer) and its reason ("" when absent).
   */
  datatype Issue = Issue(v: Option<int>, c: Option<int>, reason: string)

  /**
   * The fields of a decoded reply that the corrector reads; a field the
   * reply leaves out reads as None, false or the empty list.
   */
  datatype Record = Record(hasIssue: bool, correctedText: Option<string>, newSummary: Option<string>, problems: seq<Issue>)

  /** The empty reply `{}`: every field left out. */
  const EMPTY: Record := Record(false, None, None, [])

  /**
   * What a request tells the model besides its fixed wording. A setting
   * request with reason "" asks the model to look for contradictions
   * itself; its `past` is "" when the record of past synopses is blank and
   * left out.
   */
  datatype Request =
    | TypoRequest(content: string)
    | SettingRequest(globalSynopsis: string, past: string, volumeSynopsis: string, reason: string, content: string, summary: string)
    | AuditRequest(globalSynopsis: string, characters: seq<Character>, summaries: string)

  /** The model behind the corrector: the streamed reply to a request, and `json.loads` on the text (None when it does not parse). */
  datatype Checker = Checker(reply: Request -> seq<Delta>, decode: string -> Option<Record>)

  /** `"chapter"` or `"full"`. */
  datatype Scope = ChapterScope | BookScope

  /** `"typo"`, `"setting"` or `"all"`. */
  datatype Mode = Typo | Setting | All

  /** How `run` ends: normally, by an exception while the stop request is set, or by any other exception. */
  datatype Outcome = Completed | Aborted | Errored

  /** The flag check made after the stream (check number `k + Checks(...)`) sees the stop request. */
  predicate StoppedBy(k: nat, cancelAt: nat, n: nat) {
    k + Checks(k, cancelAt, n) >= cancelAt
  }

  /** A stream that is not stopped by the check after it was read to its end. */
  lemma UnstoppedReadsAll(k: nat, cancelAt: nat, n: nat)
    requires !StoppedBy(k, cancelAt, n)
    ensures Reached(k, cancelAt, n) == n
  {
  }

  /** The flag checks of one request: one per chunk read, the one that stops the stream if any, and the one after the stream. */
  function Spent(checker: Checker, req: Request, k: nat, cancelAt: nat): nat {
    Checks(k, cancelAt, |checker.reply(req)|) + 1
  }

  /** The reply to a request that was not stopped does not parse. */
  predicate Malformed(checker: Checker, req: Request, k: nat, cancelAt: nat) {
    !StoppedBy(k, cancelAt, |checker.reply(req)|) && checker.decode(Received(checker.reply(req))).None?
  }

  /** What `_call_llm_json` returns for a request whose first flag check is number `k`. */
  function Answer(checker: Checker, req: Request, k: nat, cancelAt: nat): Record {
    var ds := checker.reply(req);
    if StoppedBy(k, cancelAt, |ds|) then EMPTY else checker.decode(Received(ds)).GetOr(EMPTY)
  }

  /** The text `_do_typo_correction` returns for a reply. */
  function TypoResult(content: string, r: Record): string {
    r.correctedText.GetOr(content)
  }

  /** The text and summary `_do_setting_correction` returns for a reply. */
  function SettingResult(content: string, summary: string, r: Record): (string, string) {
    if r.hasIssue then (r.correctedText.GetOr(content), r.newSummary.GetOr(summary)) else (content, summary)
  }

  /** The reply to a request reports nothing to fix: it does not parse, or it reports no issue and carries no corrected text. */
  predicate Silent(checker: Checker, req: Request) {
    var d := checker.decode(Received(checker.reply(req)));
    d.None? || (!d.value.hasIssue && d.value.correctedText.None?)
  }

  /**
   * A request that is stopped, whose reply does not parse, or whose reply
   * finds nothing changes nothing: the typo repair keeps the text and the
   * setting repair keeps text and summary.
   */
  lemma UnansweredKeepsText(checker: Checker, req: Request, k: nat, cancelAt: nat, content: string, summary: string)
    requires StoppedBy(k, cancelAt, |checker.reply(req)|) || Silent(checker, req)
    ensures TypoResult(content, Answer(checker, req, k, cancelAt)) == content
    ensures SettingResult(content, summary, Answer(checker, req, k, cancelAt)) == (content, summary)
  {
  }

  /** Python's `xs[i]` on a list of length `n`: a negative index counts from the end; None stands for the `IndexError`. */
  function PyIndex(i: int, n: nat): (r: Option<nat>)
    ensures r.Some? <==> 0 <= i + n && i < n
    ensures r.Some? ==> r.value < n
    ensures r.Some? && i >= 0 ==> r.value == i
    ensures r.Some? && i < 0 ==> r.value == i + n
  {
    if 0 <= i < n then Some(i) else if 0 <= i + n && i < 0 then Some(i + n) else None
  }

  /** The chapter `self.meta["volumes"][v]["chapters"][c]` finds for an issue; None when that lookup raises. */
  function Locate(vols: seq<Volume>, issue: Issue): (r: Option<(nat, nat)>)
    ensures r.Some? ==> ChapterAt(vols, r.value.0, r.value.1)
    ensures r.Some? <==> (issue.v.Some? && issue.c.Some? && 0 <= issue.v.value + |vols| && issue.v.value < |vols| &&
      var n := |vols[PyIndex(issue.v.value, |vols|).value].chapters|; 0 <= issue.c.value + n && issue.c.value < n)
  {
    if issue.v.None? || issue.c.None? then None
    else
      match PyIndex(issue.v.value, |vols|)
      case None => None
      case Some(v) =>
        match PyIndex(issue.c.value, |vols[v].chapters|)
        case None => None
        case Some(c) => Some((v, c))
  }

  /** A lookup depends only on the outline, which no correction changes. */
  lemma LocateOutline(a: seq<Volume>, b: seq<Volume>, issue: Issue)
    requires SameOutline(a, b)
    ensures Locate(a, issue) == Locate(b, issue)
  {
  }

  /**
   * `_get_past_summaries(v, c)` for indices as given: nothing when `v` is
   * negative (the volume loop runs no round), and no chapter of volume `v`
   * when `c` is.
   */
  function PastSummaries(vols: seq<Volume>, v: int, c: int): string
    requires v < |vols| && (0 <= v ==> c <= |vols[v].chapters|)
  {
    if v < 0 then "" else History(AuditStyle, vols, v, if c < 0 then 0 else c)
  }

  /** The setting request `_do_setting_correction` makes for the chapter an issue names. */
  function SettingRequestFor(meta: Meta, at: Issue, content: string, summary: string): Request
    requires Locate(meta.volumes, at).Some?
  {
    var v := Locate(meta.volumes, at).value.0;
    var past := PastSummaries(meta.volumes, at.v.value, at.c.value);
    SettingRequest(meta.globalSynopsis, if IsBlank(past) then "" else past, meta.volumes[v].synopsis, at.reason, content, summary)
  }

  /** The audit's listing of the book: every volume's header and every chapter with its AI synopsis. */
  function Summaries(vols: seq<Volume>): string {
    if |vols| == 0 then "" else History(ScanStyle, vols, |vols| - 1, |vols[|vols| - 1].chapters|)
  }

  /** The listing loop of `_detect_global_setting_conflicts`. */
  method ListBook(vols: seq<Volume>) returns (summaries: string)
    ensures summaries == Summaries(vols)
  {
    summaries := "";
    if |vols| > 0 {
      summaries := AssembleHistory(LineOf(ScanStyle, vols), vols, |vols| - 1, |vols[|vols| - 1].chapters|);
    }
  }

  /** The audit's listing holds every volume and every chapter of the book. */
  lemma SummariesListEveryChapter(vols: seq<Volume>)
    requires |vols| > 0
    ensures forall i: nat, j: nat :: ChapterEntry(i, j) in Entries(vols, |vols| - 1, |vols[|vols| - 1].chapters|) <==>
      i < |vols| && j < |vols[i].chapters|
    ensures forall i: nat :: VolumeEntry(i) in Entries(vols, |vols| - 1, |vols[|vols| - 1].chapters|) <==> i < |vols|
  {
    HistoryCoversEarlierChapters(vols, |vols| - 1, |vols[|vols| - 1].chapters|);
  }

  /** The text and summary a correction holds, and the flag checks made so far. */
  datatype Pass = Pass(content: string, summary: string, polls: nat)

  /** The setting pass of a single-chapter correction: it runs when the flag check before it does not see the stop request. */
  function SettingStep(meta: Meta, v: nat, c: nat, checker: Checker, cancelAt: nat, p: Pass): Pass
    requires ChapterAt(meta.volumes, v, c)
  {
    if p.polls >= cancelAt then p.(polls := p.polls + 1)
    else
      var k := p.polls + 1;
      var req := SettingRequestFor(meta, Issue(Some(v), Some(c), ""), p.content, p.summary);
      var res := SettingResult(p.content, p.summary, Answer(checker, req, k, cancelAt));
      Pass(res.0, res.1, k + Spent(checker, req, k, cancelAt))
  }

  /** The typo pass of a single-chapter correction, guarded the same way. */
  function TypoStep(checker: Checker, cancelAt: nat, p: Pass): Pass {
    if p.polls >= cancelAt then p.(polls := p.polls + 1)
    else
      var k := p.polls + 1;
      var req := TypoRequest(p.content);
      Pass(TypoResult(p.content, Answer(checker, req, k, cancelAt)), p.summary, k + Spent(checker, req, k, cancelAt))
  }

  /** The passes of a mode: the setting pass first (modes setting and all), then the typo pass on its output (modes typo and all). */
  function Passes(meta: Meta, v: nat, c: nat, checker: Checker, mode: Mode, cancelAt: nat, p0: Pass): Pass
    requires ChapterAt(meta.volumes, v, c)
  {
    var p1 := if mode != Typo then SettingStep(meta, v, c, checker, cancelAt, p0) else p0;
    if mode != Setting then TypoStep(checker, cancelAt, p1) else p1
  }

  /** What `_correct_single_chapter` hands to `apply_corrected_text` for a chapter with text. */
  function SingleCorrection(meta: Meta, store: Store, checker: Checker, mode: Mode, v: nat, c: nat, k: nat, cancelAt: nat): Pass
    requires ChapterAt(meta.volumes, v, c)
  {
    var vol := meta.volumes[v];
    var ch := vol.chapters[c];
    Passes(meta, v, c, checker, mode, cancelAt, Pass(ChapterText(store, vol.name, ch.name), ch.aiSynopsis, k))
  }

  /** A correction stopped before it begins gives back the chapter's text and summary. */
  lemma StoppedCorrectionKeepsChapter(meta: Meta, store: Store, checker: Checker, mode: Mode, v: nat, c: nat, k: nat, cancelAt: nat)
    requires ChapterAt(meta.volumes, v, c) && k >= cancelAt
    ensures var ch := meta.volumes[v].chapters[c];
      var p := SingleCorrection(meta, store, checker, mode, v, c, k, cancelAt);
      p.content == ChapterText(store, meta.volumes[v].name, ch.name) && p.summary == ch.aiSynopsis
  {
  }

  /** A typo correction never changes the chapter's AI synopsis. */
  lemma TypoCorrectionKeepsSummary(meta: Meta, store: Store, checker: Checker, v: nat, c: nat, k: nat, cancelAt: nat)
    requires ChapterAt(meta.volumes, v, c)
    ensures SingleCorrection(meta, store, checker, Typo, v, c, k, cancelAt).summary == meta.volumes[v].chapters[c].aiSynopsis
  {
  }

  /** A setting pass whose model finds nothing keeps the text and summary. */
  lemma SilentSettingStep(meta: Meta, v: nat, c: nat, checker: Checker, cancelAt: nat, p: Pass)
    requires ChapterAt(meta.volumes, v, c)
    requires forall req :: Silent(checker, req)
    ensures var q := SettingStep(meta, v, c, checker, cancelAt, p);
      q.content == p.content && q.summary == p.summary
  {
    if p.polls < cancelAt {
      var req := SettingRequestFor(meta, Issue(Some(v), Some(c), ""), p.content, p.summary);
      UnansweredKeepsText(checker, req, p.polls + 1, cancelAt, p.content, p.summary);
    }
  }

  /** A typo pass whose model finds nothing keeps the text and summary. */
  lemma SilentTypoStep(checker: Checker, cancelAt: nat, p: Pass)
    requires forall req :: Silent(checker, req)
    ensures var q := TypoStep(checker, cancelAt, p);
      q.content == p.content && q.summary == p.summary
  {
    if p.polls < cancelAt {
      UnansweredKeepsText(checker, TypoRequest(p.content), p.polls + 1, cancelAt, p.content, p.summary);
    }
  }

  /** When the model finds nothing in any request, the correction gives back the chapter's text and summary, in every mode. */
  lemma SilentCheckerKeepsChapter(meta: Meta, store: Store, checker: Checker, mode: Mode, v: nat, c: nat, k: nat, cancelAt: nat)
    requires ChapterAt(meta.volumes, v, c)
    requires forall req :: Silent(checker, req)
    ensures var ch := meta.volumes[v].chapters[c];
      var p := SingleCorrection(meta, store, checker, mode, v, c, k, cancelAt);
      p.content == ChapterText(store, meta.volumes[v].name, ch.name) && p.summary == ch.aiSynopsis
  {
    var vol := meta.volumes[v];
    var ch := vol.chapters[c];
    var p0 := Pass(ChapterText(store, vol.name, ch.name), ch.aiSynopsis, k);
    SilentSettingStep(meta, v, c, checker, cancelAt, p0);
    var p1 := if mode != Typo then SettingStep(meta, v, c, checker, cancelAt, p0) else p0;
    SilentTypoStep(checker, cancelAt, p1);
  }

  /** Nothing to commit on an error: the window has no generation target. */
  predicate NoTarget(f: Fields) {
    f.genV == -1 || f.genC == -1
  }

  /** The window, its book and its chapter texts, as one value. */
  datatype Scene = Scene(fields: Fields, meta: Meta, store: Store)

  function SceneOf(w: MainWindow): Scene
    reads w, w.project
  {
    Scene(w.Snapshot(), w.project.meta, w.project.store)
  }

  /**
   * What every step of a correction keeps: the correction mode, the
   * selection, the absence of a generation target, and the outline of the
   * book.
   */
  predicate Touched(a: Scene, b: Scene) {
    b.fields.isCorrecting == a.fields.isCorrecting &&
    b.fields.currentV == a.fields.currentV && b.fields.currentC == a.fields.currentC &&
    (NoTarget(a.fields) ==> NoTarget(b.fields)) &&
    SameOutline(a.meta.volumes, b.meta.volumes)
  }

  /** A step that also leaves the book alone when the window has no generation target. */
  predicate Calm(a: Scene, b: Scene) {
    Touched(a, b) && (NoTarget(a.fields) ==> b.meta == a.meta && b.store == a.store)
  }

  lemma TouchedTrans(a: Scene, b: Scene, c: Scene)
    requires Touched(a, b) && Touched(b, c)
    ensures Touched(a, c)
  {
    SameOutlineTrans(a.meta.volumes, b.meta.volumes, c.meta.volumes);
  }

  lemma CalmTrans(a: Scene, b: Scene, c: Scene)
    requires Calm(a, b) && Calm(b, c)
    ensures Calm(a, c)
  {
    TouchedTrans(a, b, c);
  }

  /** The window's fields after `append_thinking` with `text`. */
  function Heard(f: Fields, text: string): Fields {
    f.(reasoningBuffer := f.reasoningBuffer + text,
      thinkingView := if ViewingIn(f) then f.thinkingView + text else f.thinkingView)
  }

  /** Two pieces of reasoning heard in a row are heard as one. */
  lemma HeardTwice(f: Fields, a: string, b: string)
    ensures Heard(Heard(f, a), b) == Heard(f, a + b)
  {
    assert f.reasoningBuffer + a + b == f.reasoningBuffer + (a + b);
    assert f.thinkingView + a + b == f.thinkingView + (a + b);
  }

  /** Every chapter text that was blank before is the same after. */
  ghost predicate KeptBlank(s0: Store, s: Store) {
    forall vol, chap :: IsBlank(ChapterText(s0, vol, chap)) ==> ChapterText(s, vol, chap) == ChapterText(s0, vol, chap)
  }

  lemma KeptBlankTrans(s0: Store, s1: Store, s2: Store)
    requires KeptBlank(s0, s1) && KeptBlank(s1, s2)
    ensures KeptBlank(s0, s2)
  {
  }

  /** Rewriting a chapter whose text is not blank keeps every blank text. */
  lemma RewriteKeepsBlank(s0: Store, s: Store, vol: string, chap: string, content: string)
    requires KeptBlank(s0, s) && !IsBlank(ChapterText(s, vol, chap))
    ensures KeptBlank(s0, s[(vol, chap) := Paragraphs(content)])
  {
    var s' := s[(vol, chap) := Paragraphs(content)];
    forall a, b | IsBlank(ChapterText(s0, a, b))
      ensures ChapterText(s', a, b) == ChapterText(s0, a, b)
    {
      assert ChapterText(s, a, b) == ChapterText(s0, a, b);
      assert (a, b) != (vol, chap);
    }
  }

  class CorrectionWorker {
    const window: MainWindow
    const flag: CancelFlag
    const checker: Checker
    const scope: Scope
    const mode: Mode
    /** The chapter a single-chapter correction works on; -1 until `set_target`. */
    var targetV: int
    var targetC: int

    constructor (window: MainWindow, flag: CancelFlag, checker: Checker, scope: Scope, mode: Mode)
      ensures this.window == window && this.flag == flag && this.checker == checker
      ensures this.scope == scope && this.mode == mode
      ensures targetV == -1 && targetC == -1
    {
      this.window := window;
      this.flag := flag;
      this.checker := checker;
      this.scope := scope;
      this.mode := mode;
      targetV, targetC := -1, -1;
    }

    /** `set_target`: the chapter a single-chapter correction works on. */
    method SetTarget(v: int, c: int)
      modifies this
      ensures targetV == v && targetC == c
    {
      targetV, targetC := v, c;
    }

    /**
     * The stream loop of `_call_llm_json`: the flag is read before each
     * chunk; reasoning goes to `append_thinking` and content to the buffer.
     */
    method Listen(ds: seq<Delta>) returns (buffer: string, n: nat)
      modifies flag, window
      ensures n == Reached(old(flag.polls), flag.cancelAt, |ds|)
      ensures flag.polls == old(flag.polls) + Checks(old(flag.polls), flag.cancelAt, |ds|)
      ensures buffer == Received(ds[..n])
      ensures window.Snapshot() == Heard(old(window.Snapshot()), Reasoning(ds[..n]))
    {
      buffer := "";
      var i := 0;
      while i < |ds|
        invariant i <= |ds|
        invariant flag.polls == old(flag.polls) + i
        invariant i > 0 ==> old(flag.polls) + i <= flag.cancelAt
        invariant buffer == Received(ds[..i])
        invariant window.Snapshot() == Heard(old(window.Snapshot()), Reasoning(ds[..i]))
      {
        var stop := flag.Check();
        if stop {
          break;
        }
        PrefixSnoc(ds, i);
        var d := ds[i];
        HeardTwice(old(window.Snapshot()), Reasoning(ds[..i]), d.reasoning);
        if d.reasoning != "" {
          window.AppendThinking(d.reasoning);
        } else {
          assert Reasoning(ds[..i]) + d.reasoning == Reasoning(ds[..i]);
        }
        buffer := buffer + d.content;
        i := i + 1;
      }
      n := i;
    }

    /**
     * `_call_llm_json`: the stream, one more flag check (a stop gives
     * `{}`), then the decoder; a reply that does not parse is reported
     * through `handle_error` and gives `{}`.
     */
    method CallLlmJson(req: Request) returns (r: Record)
      modifies flag, window, window.project
      ensures r == Answer(checker, req, old(flag.polls), flag.cancelAt)
      ensures flag.polls == old(flag.polls) + Spent(checker, req, old(flag.polls), flag.cancelAt)
      ensures var ds := checker.reply(req);
        window.reasoningBuffer == old(window.reasoningBuffer) + Reasoning(ds[..Reached(old(flag.polls), flag.cancelAt, |ds|)])
      ensures !Malformed(checker, req, old(flag.polls), flag.cancelAt) ==>
        window.project.meta == old(window.project.meta) && window.project.store == old(window.project.store)
      ensures Calm(old(SceneOf(window)), SceneOf(window))
    {
      var ds := checker.reply(req);
      var buffer, n := Listen(ds);
      var stop := flag.Check();
      if stop {
        return EMPTY;
      }
      UnstoppedReadsAll(old(flag.polls), flag.cancelAt, |ds|);
      assert ds[..n] == ds;
      var d := checker.decode(buffer);
      if d.None? {
        var _ := window.HandleError();
        r := EMPTY;
      } else {
        r := d.value;
      }
    }

    /** `_do_typo_correction`: the reply's corrected text, or the text as it was. */
    method DoTypo(content: string) returns (text: string)
      modifies flag, window, window.project
      ensures text == TypoResult(content, Answer(checker, TypoRequest(content), old(flag.polls), flag.cancelAt))
      ensures flag.polls == old(flag.polls) + Spent(checker, TypoRequest(content), old(flag.polls), flag.cancelAt)
      ensures Calm(old(SceneOf(window)), SceneOf(window))
    {
      var r := CallLlmJson(TypoRequest(content));
      text := r.correctedText.GetOr(content);
    }

    /** `_get_past_summaries` for indices as given. */
    method GetPastSummaries(v: int, c: int) returns (s: string)
      requires v < |window.project.meta.volumes| && (0 <= v ==> c <= |window.project.meta.volumes[v].chapters|)
      ensures s == PastSummaries(window.project.meta.volumes, v, c)
    {
      var vols := window.project.meta.volumes;
      if v < 0 {
        return "";
      }
      s := AssembleHistory(LineOf(AuditStyle, vols), vols, v, if c < 0 then 0 else c);
    }

    /**
     * `_do_setting_correction` for the chapter an issue names: the reply's
     * text and summary when it reports an issue, else the pair as it was.
     */
    method DoSetting(at: Issue, content: string, summary: string) returns (text: string, syn: string)
      requires Locate(window.project.meta.volumes, at).Some?
      modifies flag, window, window.project
      ensures var req := SettingRequestFor(old(window.project.meta), at, content, summary);
        (text, syn) == SettingResult(content, summary, Answer(checker, req, old(flag.polls), flag.cancelAt)) &&
        flag.polls == old(flag.polls) + Spent(checker, req, old(flag.polls), flag.cancelAt)
      ensures Calm(old(SceneOf(window)), SceneOf(window))
    {
      var meta := window.project.meta;
      var v := Locate(meta.volumes, at).value.0;
      var past := GetPastSummaries(at.v.value, at.c.value);
      var req := SettingRequest(meta.globalSynopsis, if IsBlank(past) then "" else past, meta.volumes[v].synopsis,
        at.reason, content, summary);
      var r := CallLlmJson(req);
      if r.hasIssue {
        text, syn := r.correctedText.GetOr(content), r.newSummary.GetOr(summary);
      } else {
        text, syn := content, summary;
      }
    }

    /** `_detect_global_setting_conflicts`: the chapters the audit of the whole listing flags. */
    method DetectConflicts() returns (problems: seq<Issue>)
      modifies flag, window, window.project
      ensures var meta := old(window.project.meta);
        var req := AuditRequest(meta.globalSynopsis, meta.characters, Summaries(meta.volumes));
        problems == Answer(checker, req, old(flag.polls), flag.cancelAt).problems &&
        flag.polls == old(flag.polls) + Spent(checker, req, old(flag.polls), flag.cancelAt)
      ensures Calm(old(SceneOf(window)), SceneOf(window))
    {
      var meta := window.project.meta;
      var summaries := ListBook(meta.volumes);
      var r := CallLlmJson(AuditRequest(meta.globalSynopsis, meta.characters, summaries));
      problems := r.problems;
    }

    /** The guarded setting pass of `_correct_single_chapter`. */
    method GuardedSetting(v: nat, c: nat, content: string, summary: string) returns (text: string, syn: string)
      requires ChapterAt(window.project.meta.volumes, v, c)
      modifies flag, window, window.project
      ensures var q := SettingStep(old(window.project.meta), v, c, checker, flag.cancelAt, Pass(content, summary, old(flag.polls)));
        text == q.content && syn == q.summary && flag.polls == q.polls
      ensures Calm(old(SceneOf(window)), SceneOf(window))
    {
      text, syn := content, summary;
      var stop := flag.Check();
      if !stop {
        text, syn := DoSetting(Issue(Some(v), Some(c), ""), content, summary);
      }
    }

    /** The guarded typo pass of `_correct_single_chapter`. */
    method GuardedTypo(content: string, summary: string) returns (text: string)
      modifies flag, window, window.project
      ensures var q := TypoStep(checker, flag.cancelAt, Pass(content, summary, old(flag.polls)));
        text == q.content && flag.polls == q.polls
      ensures Calm(old(SceneOf(window)), SceneOf(window))
    {
      text := content;
      var stop := flag.Check();
      if !stop {
        text := DoTypo(content);
      }
    }

    /** The passes of `_correct_single_chapter`, each behind its flag check. */
    method RunPasses(v: nat, c: nat, content: string, summary: string) returns (text: string, syn: string)
      requires ChapterAt(window.project.meta.volumes, v, c)
      modifies flag, window, window.project
      ensures var q := Passes(old(window.project.meta), v, c, checker, mode, flag.cancelAt, Pass(content, summary, old(flag.polls)));
        text == q.content && syn == q.summary && flag.polls == q.polls
      ensures Calm(old(SceneOf(window)), SceneOf(window))
    {
      text, syn := content, summary;
      if mode != Typo {
        text, syn := GuardedSetting(v, c, text, syn);
      }
      ghost var s1 := SceneOf(window);
      if mode != Setting {
        text := GuardedTypo(text, syn);
      }
      CalmTrans(old(SceneOf(window)), s1, SceneOf(window));
    }

    /**
     * `_correct_single_chapter`: a chapter without text is skipped;
     * otherwise the passes of the mode run and their result is applied to
     * the chapter through `apply_corrected_text`.
     */
    method CorrectSingleChapter(v: nat, c: nat)
      requires ChapterAt(window.project.meta.volumes, v, c)
      modifies flag, window, window.project
      ensures var vol := old(window.project.meta.volumes[v]);
        var ch := vol.chapters[c];
        var content := ChapterText(old(window.project.store), vol.name, ch.name);
        var p := SingleCorrection(old(window.project.meta), old(window.project.store), checker, mode, v, c, old(flag.polls), flag.cancelAt);
        (IsBlank(content) ==> SceneOf(window) == old(SceneOf(window)) && flag.polls == old(flag.polls)) &&
        (!IsBlank(content) ==>
          flag.polls == p.polls && ChapterText(window.project.store, vol.name, ch.name) == p.content &&
          (NoTarget(old(window.Snapshot())) ==>
            window.project.store == old(window.project.store)[(vol.name, ch.name) := Paragraphs(p.content)] &&
            window.project.meta == WithChapterAt(old(window.project.meta), v, c,
              ch.(aiSynopsis := if p.summary != "" then p.summary else ch.aiSynopsis))))
      ensures Touched(old(SceneOf(window)), SceneOf(window))
    {
      var meta := window.project.meta;
      var vol := meta.volumes[v];
      var ch := vol.chapters[c];
      var content := window.project.ReadChapterContent(vol.name, ch.name);
      if IsBlank(content) {
        return;
      }
      var text, syn := RunPasses(v, c, content, ch.aiSynopsis);
      ghost var s1 := SceneOf(window);
      window.ApplyCorrectedText(v, c, text, syn);
      TouchedTrans(old(SceneOf(window)), s1, SceneOf(window));
    }

    /**
     * One round of the repair loop of `_correct_full_book`: the chapter the
     * issue names gets the setting repair with the issue's reason. A lookup
     * that raises ends the whole correction (`failed`).
     */
    method FixIssue(issue: Issue) returns (failed: bool)
      modifies flag, window, window.project
      ensures failed <==> Locate(old(window.project.meta.volumes), issue).None?
      ensures failed ==> SceneOf(window) == old(SceneOf(window)) && flag.polls == old(flag.polls)
      ensures !failed ==>
        var (v, c) := Locate(old(window.project.meta.volumes), issue).value;
        var vol := old(window.project.meta.volumes[v]);
        var ch := vol.chapters[c];
        var content := ChapterText(old(window.project.store), vol.name, ch.name);
        var req := SettingRequestFor(old(window.project.meta), issue, content, ch.aiSynopsis);
        var res := SettingResult(content, ch.aiSynopsis, Answer(checker, req, old(flag.polls), flag.cancelAt));
        flag.polls == old(flag.polls) + Spent(checker, req, old(flag.polls), flag.cancelAt) &&
        ChapterText(window.project.store, vol.name, ch.name) == res.0 &&
        (NoTarget(old(window.Snapshot())) ==>
          window.project.store == old(window.project.store)[(vol.name, ch.name) := Paragraphs(res.0)] &&
          window.project.meta == WithChapterAt(old(window.project.meta), v, c,
            ch.(aiSynopsis := if res.1 != "" then res.1 else ch.aiSynopsis)))
      ensures Touched(old(SceneOf(window)), SceneOf(window))
    {
      var meta := window.project.meta;
      var at := Locate(meta.volumes, issue);
      if at.None? {
        return true;
      }
      var (v, c) := at.value;
      var vol := meta.volumes[v];
      var ch := vol.chapters[c];
      var content := window.project.ReadChapterContent(vol.name, ch.name);
      var text, syn := DoSetting(issue, content, ch.aiSynopsis);
      ghost var s1 := SceneOf(window);
      window.ApplyCorrectedText(v, c, text, syn);
      TouchedTrans(old(SceneOf(window)), s1, SceneOf(window));
      failed := false;
    }

    /**
     * The repair loop of `_correct_full_book`: the flag is read before each
     * issue, and the issues are repaired in order until the list ends, the
     * flag is seen, or a lookup raises.
     */
    method FixIssues(problems: seq<Issue>) returns (failed: bool, n: nat)
      modifies flag, window, window.project
      ensures n <= |problems|
      ensures forall i :: 0 <= i < n ==> Locate(old(window.project.meta.volumes), problems[i]).Some?
      ensures failed ==> n < |problems| && Locate(old(window.project.meta.volumes), problems[n]).None?
      ensures !failed && n < |problems| ==> flag.polls > flag.cancelAt
      ensures flag.polls >= old(flag.polls)
      ensures Touched(old(SceneOf(window)), SceneOf(window))
    {
      failed, n := false, 0;
      ghost var s0 := SceneOf(window);
      ghost var vols0 := s0.meta.volumes;
      while n < |problems|
        invariant n <= |problems|
        invariant forall i :: 0 <= i < n ==> Locate(vols0, problems[i]).Some?
        invariant flag.polls >= old(flag.polls)
        invariant Touched(s0, SceneOf(window))
      {
        var stop := flag.Check();
        if stop {
          return;
        }
        failed := FixNext(s0, problems[n]);
        if failed {
          return;
        }
        n := n + 1;
      }
    }

    /** One round of the repair loop, stated against the scene at the start of the loop. */
    method FixNext(ghost s0: Scene, issue: Issue) returns (failed: bool)
      requires Touched(s0, SceneOf(window))
      modifies flag, window, window.project
      ensures failed <==> Locate(s0.meta.volumes, issue).None?
      ensures flag.polls >= old(flag.polls)
      ensures Touched(s0, SceneOf(window))
    {
      LocateOutline(s0.meta.volumes, window.project.meta.volumes, issue);
      ghost var s1 := SceneOf(window);
      failed := FixIssue(issue);
      TouchedTrans(s0, s1, SceneOf(window));
    }

    /**
     * One chapter of the proofreading loop of `_correct_full_book`: a
     * chapter without text is skipped; otherwise its text gets the typo
     * repair and its AI synopsis stays.
     */
    method ProofreadChapter(v: nat, c: nat)
      requires ChapterAt(window.project.meta.volumes, v, c)
      modifies flag, window, window.project
      ensures var vol := old(window.project.meta.volumes[v]);
        var ch := vol.chapters[c];
        var content := ChapterText(old(window.project.store), vol.name, ch.name);
        (IsBlank(content) ==> SceneOf(window) == old(SceneOf(window)) && flag.polls == old(flag.polls)) &&
        (!IsBlank(content) ==>
          var text := TypoResult(content, Answer(checker, TypoRequest(content), old(flag.polls), flag.cancelAt));
          flag.polls == old(flag.polls) + Spent(checker, TypoRequest(content), old(flag.polls), flag.cancelAt) &&
          ChapterText(window.project.store, vol.name, ch.name) == text &&
          (NoTarget(old(window.Snapshot())) ==>
            window.project.store == old(window.project.store)[(vol.name, ch.name) := Paragraphs(text)] &&
            window.project.meta == old(window.project.meta)))
      ensures Touched(old(SceneOf(window)), SceneOf(window))
    {
      var vol := window.project.meta.volumes[v];
      var ch := vol.chapters[c];
      var content := window.project.ReadChapterContent(vol.name, ch.name);
      if IsBlank(content) {
        return;
      }
      var text := DoTypo(content);
      var summary := window.project.meta.volumes[v].chapters[c].aiSynopsis;
      ghost var s1 := SceneOf(window);
      window.ApplyCorrectedText(v, c, text, summary);
      WithChapterAtSame(s1.meta, v, c);
      TouchedTrans(old(SceneOf(window)), s1, SceneOf(window));
    }

    /**
     * One chapter of the proofreading loop, stated against the scene `s0`
     * at the start of the loop: the book's synopses stay and blank texts
     * stay blank.
     */
    method ProofreadStep(ghost s0: Scene, v: nat, c: nat)
      requires ChapterAt(window.project.meta.volumes, v, c)
      requires Touched(s0, SceneOf(window))
      requires NoTarget(s0.fields) ==> window.project.meta == s0.meta && KeptBlank(s0.store, window.project.store)
      modifies flag, window, window.project
      ensures NoTarget(s0.fields) ==> window.project.meta == s0.meta && KeptBlank(s0.store, window.project.store)
      ensures flag.polls >= old(flag.polls)
      ensures Touched(s0, SceneOf(window))
    {
      var vol := window.project.meta.volumes[v];
      var key := (vol.name, vol.chapters[c].name);
      ghost var s1 := SceneOf(window);
      ProofreadChapter(v, c);
      TouchedTrans(s0, s1, SceneOf(window));
      if NoTarget(s0.fields) && !IsBlank(ChapterText(s1.store, key.0, key.1)) {
        RewriteKeepsBlank(s0.store, s1.store, key.0, key.1, ChapterText(window.project.store, key.0, key.1));
      }
    }

    /** The chapters of volume `v` in the proofreading loop; `stopped` when the flag is seen before one of them. */
    method ProofreadVolume(ghost s0: Scene, v: nat) returns (stopped: bool)
      requires v < |window.project.meta.volumes|
      requires Touched(s0, SceneOf(window))
      requires NoTarget(s0.fields) ==> window.project.meta == s0.meta && KeptBlank(s0.store, window.project.store)
      modifies flag, window, window.project
      ensures stopped ==> flag.polls > flag.cancelAt
      ensures flag.polls >= old(flag.polls)
      ensures NoTarget(s0.fields) ==> window.project.meta == s0.meta && KeptBlank(s0.store, window.project.store)
      ensures Touched(s0, SceneOf(window))
    {
      var c := 0;
      stopped := false;
      while c < |window.project.meta.volumes[v].chapters|
        invariant v < |window.project.meta.volumes|
        invariant flag.polls >= old(flag.polls)
        invariant NoTarget(s0.fields) ==> window.project.meta == s0.meta && KeptBlank(s0.store, window.project.store)
        invariant Touched(s0, SceneOf(window))
        decreases |window.project.meta.volumes[v].chapters| - c
      {
        var stop := flag.Check();
        if stop {
          return true;
        }
        ProofreadStep(s0, v, c);
        c := c + 1;
      }
    }

    /** The proofreading loop of `_correct_full_book` over every volume; it returns when the flag is seen. */
    method ProofreadBook() returns (stopped: bool)
      modifies flag, window, window.project
      ensures stopped ==> flag.polls > flag.cancelAt
      ensures flag.polls >= old(flag.polls)
      ensures NoTarget(old(window.Snapshot())) ==>
        window.project.meta == old(window.project.meta) && KeptBlank(old(window.project.store), window.project.store)
      ensures Touched(old(SceneOf(window)), SceneOf(window))
    {
      ghost var s0 := SceneOf(window);
      assert KeptBlank(s0.store, s0.store);
      var v := 0;
      stopped := false;
      while v < |window.project.meta.volumes|
        invariant flag.polls >= old(flag.polls)
        invariant NoTarget(s0.fields) ==> window.project.meta == s0.meta && KeptBlank(s0.store, window.project.store)
        invariant Touched(s0, SceneOf(window))
        decreases |window.project.meta.volumes| - v
      {
        stopped := ProofreadVolume(s0, v);
        if stopped {
          return;
        }
        v := v + 1;
      }
    }

    /**
     * `_correct_full_book`: in modes setting and all, the audit and then
     * the repair of each flagged chapter (a stop right after the audit ends
     * the correction); in modes typo and all, the proofreading of every
     * chapter. `failed` when a flagged chapter's lookup raises.
     */
    method CorrectFullBook() returns (failed: bool)
      modifies flag, window, window.project
      ensures failed ==> mode != Typo
      ensures mode == Typo && NoTarget(old(window.Snapshot())) ==>
        window.project.meta == old(window.project.meta) && KeptBlank(old(window.project.store), window.project.store)
      ensures flag.polls >= old(flag.polls)
      ensures Touched(old(SceneOf(window)), SceneOf(window))
    {
      failed := false;
      if mode != Typo {
        var problems := DetectConflicts();
        ghost var s1 := SceneOf(window);
        var stop := flag.Check();
        if stop {
          return;
        }
        var n;
        failed, n := FixIssues(problems);
        TouchedTrans(old(SceneOf(window)), s1, SceneOf(window));
        if failed {
          return;
        }
      }
      if mode != Setting {
        ghost var s2 := SceneOf(window);
        var _ := ProofreadBook();
        TouchedTrans(old(SceneOf(window)), s2, SceneOf(window));
      }
    }

    /**
     * `run`: the correction of the scope, then `correction_finished`; an
     * exception goes to `correction_finished` when the flag is set and to
     * `handle_error` otherwise, which leaves the window in correction mode.
     */
    method Run() returns (outcome: Outcome)
      requires scope == ChapterScope ==> ChapterAt(window.project.meta.volumes, targetV, targetC)
      modifies flag, window, window.project
      ensures window.isCorrecting <==> old(window.isCorrecting) && outcome == Errored
      ensures outcome != Completed ==> scope == BookScope && mode != Typo
      ensures outcome == Aborted ==> flag.polls > flag.cancelAt
      ensures SameOutline(old(window.project.meta.volumes), window.project.meta.volumes)
      ensures scope == ChapterScope ==>
        var v: nat, c: nat := targetV, targetC;
        var vol := old(window.project.meta.volumes[v]);
        var content := ChapterText(old(window.project.store), vol.name, vol.chapters[c].name);
        ChapterText(window.project.store, vol.name, vol.chapters[c].name) ==
          if IsBlank(content) then content
          else SingleCorrection(old(window.project.meta), old(window.project.store), checker, mode, v, c, old(flag.polls), flag.cancelAt).content
    {
      if scope == ChapterScope {
        CorrectSingleChapter(targetV, targetC);
        window.CorrectionFinished();
        return Completed;
      }
      var failed := CorrectFullBook();
      if !failed {
        window.CorrectionFinished();
        return Completed;
      }
      var stop := flag.Check();
      if stop {
        window.CorrectionFinished();
        return Aborted;
      }
      var _ := window.HandleError();
      outcome := Errored;
    }
  }
}
