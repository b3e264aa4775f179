/**
 * Context assembly for a chapter about to be written or corrected: which
 * earlier chapter the new one continues, how much of its prose is quoted,
 * and the running history of everything written before the target. The
 * main window, the autopilot and the corrector each render that history in
 * their own format.
 */
module Context {
  import opened Text
  import opened DataManager

  /** A line of a history: a volume header or one chapter's synopsis. */
  datatype Entry = VolumeEntry(v: nat) | ChapterEntry(v: nat, c: nat)

  /** Chapter `j` of volume `i` exists and comes before chapter `c` of volume `v`. */
  predicate IsEarlier(vols: seq<Volume>, i: nat, j: nat, v: nat, c: nat) {
    (i < v && i < |vols| && j < |vols[i].chapters|) || (i == v && j < c)
  }

  /** How many chapters of volume `i` a history for target `(v, c)` lists. */
  function Limit(vols: seq<Volume>, v: nat, c: nat, i: nat): nat
    requires i < |vols|
  {
    if i == v then c else |vols[i].chapters|
  }

  /** The entries of the first `n` chapters of volume `i`. */
  function ChapterRun(i: nat, n: nat): (r: seq<Entry>)
    ensures |r| == n
    ensures forall j :: 0 <= j < n ==> r[j] == ChapterEntry(i, j)
  {
    seq(n, j requires 0 <= j < n => ChapterEntry(i, j))
  }

  /** The entries of volumes `0 .. k-1` for target `(v, c)`: each header, then its listed chapters. */
  function EntriesUpTo(vols: seq<Volume>, v: nat, c: nat, k: nat): seq<Entry>
    requires v < |vols| && k <= v + 1
  {
    if k == 0 then []
    else EntriesUpTo(vols, v, c, k - 1) + [VolumeEntry(k - 1)] + ChapterRun(k - 1, Limit(vols, v, c, k - 1))
  }

  /** Everything a history for target `(v, c)` lists, in order. */
  function Entries(vols: seq<Volume>, v: nat, c: nat): seq<Entry>
    requires v < |vols|
  {
    EntriesUpTo(vols, v, c, v + 1)
  }

  lemma {:induction false} EntriesUpToMembers(vols: seq<Volume>, v: nat, c: nat, k: nat)
    requires v < |vols| && k <= v + 1
    ensures forall i: nat, j: nat :: ChapterEntry(i, j) in EntriesUpTo(vols, v, c, k) <==> i < k && j < Limit(vols, v, c, i)
    ensures forall i: nat :: VolumeEntry(i) in EntriesUpTo(vols, v, c, k) <==> i < k
  {
    if k > 0 {
      EntriesUpToMembers(vols, v, c, k - 1);
      var run := ChapterRun(k - 1, Limit(vols, v, c, k - 1));
      assert EntriesUpTo(vols, v, c, k) == EntriesUpTo(vols, v, c, k - 1) + [VolumeEntry(k - 1)] + run;
      assert forall x :: 0 <= x < |run| ==> run[x] == ChapterEntry(k - 1, x);
    }
  }

  /**
   * A history lists every volume up to the target's, and exactly the
   * chapters that come before the target: nothing at or after it.
   */
  lemma HistoryCoversEarlierChapters(vols: seq<Volume>, v: nat, c: nat)
    requires v < |vols| && c <= |vols[v].chapters|
    ensures forall i: nat, j: nat :: ChapterEntry(i, j) in Entries(vols, v, c) <==> IsEarlier(vols, i, j, v, c)
    ensures forall i: nat :: VolumeEntry(i) in Entries(vols, v, c) <==> i <= v
  {
    EntriesUpToMembers(vols, v, c, v + 1);
  }

  /** Which of the three history formats is rendered. */
  datatype Style =
    | WindowStyle     // the main window's single-chapter prompt
    | AutopilotStyle  // the autopilot's chapter prompt
    | AuditStyle      // the corrector's record of past synopses
    | ScanStyle       // the corrector's listing of the whole book for its audit

  const NO_SUMMARY: string := "暂无概要"

  /** The main window shows a chapter's AI synopsis, or the author's when that is blank. */
  function WindowDisplay(ch: Chapter): (r: string)
    ensures !IsBlank(ch.aiSynopsis) ==> r == ch.aiSynopsis
    ensures IsBlank(ch.aiSynopsis) ==> r == ch.synopsis
  {
    if IsBlank(ch.aiSynopsis) then ch.synopsis else ch.aiSynopsis
  }

  /**
   * The corrector shows the AI synopsis, else the author's, else a fixed
   * placeholder: a chapter's line never goes blank.
   */
  function AuditDisplay(ch: Chapter): (r: string)
    ensures !IsBlank(r)
    ensures !IsBlank(ch.aiSynopsis) ==> r == ch.aiSynopsis
    ensures IsBlank(ch.aiSynopsis) && !IsBlank(ch.synopsis) ==> r == ch.synopsis
    ensures IsBlank(ch.aiSynopsis) && IsBlank(ch.synopsis) ==> r == NO_SUMMARY
  {
    if !IsBlank(ch.aiSynopsis) then ch.aiSynopsis
    else if !IsBlank(ch.synopsis) then ch.synopsis
    else
      assert !IsSpace(NO_SUMMARY[0]);
      NO_SUMMARY
  }

  /** The text of one entry; an entry that names no chapter renders as nothing. */
  function Line(style: Style, vols: seq<Volume>, e: Entry): string {
    if e.v >= |vols| then ""
    else
      var vol := vols[e.v];
      match e
      case VolumeEntry(i) =>
        (match style
         case WindowStyle => "\n> " + vol.name + " (梗概: " + vol.synopsis + ")\n"
         case AutopilotStyle => ""
         case AuditStyle => "\n▶ 第" + NatToString(i + 1) + "卷: " + vol.name + " (本卷梗概: " + vol.synopsis + ")\n"
         case ScanStyle => "\n▶ 第" + NatToString(i + 1) + "卷: " + vol.name + "\n")
      case ChapterEntry(i, j) =>
        if j >= |vol.chapters| then ""
        else
          var ch := vol.chapters[j];
          match style
          case WindowStyle => "  - " + ch.name + ": " + WindowDisplay(ch) + "\n"
          case AutopilotStyle => " - " + ch.name + ": " + ch.aiSynopsis + "\n"
          case AuditStyle => "  - 第" + NatToString(j + 1) + "章 [" + ch.name + "]: " + AuditDisplay(ch) + "\n"
          case ScanStyle => "  - 第" + NatToString(j + 1) + "章 [" + ch.name + "]: " + ch.aiSynopsis + "\n"
  }

  /** The renderer of one history format. */
  function LineOf(style: Style, vols: seq<Volume>): Entry -> string {
    e => Line(style, vols, e)
  }

  /** The lines of the entries, in order. */
  function Render(line: Entry -> string, es: seq<Entry>): string {
    if |es| == 0 then "" else Render(line, es[..|es| - 1]) + line(es[|es| - 1])
  }

  lemma RenderSnoc(line: Entry -> string, es: seq<Entry>, e: Entry)
    ensures Render(line, es + [e]) == Render(line, es) + line(e)
  {
    assert (es + [e])[..|es|] == es;
  }

  lemma {:induction false} RenderAppend(line: Entry -> string, a: seq<Entry>, b: seq<Entry>)
    ensures Render(line, a + b) == Render(line, a) + Render(line, b)
    decreases |b|
  {
    if |b| > 0 {
      var b' := b[..|b| - 1];
      var e := b[|b| - 1];
      assert b == b' + [e];
      assert a + b == (a + b') + [e];
      RenderAppend(line, a, b');
      RenderSnoc(line, a + b', e);
      RenderSnoc(line, b', e);
    } else {
      assert a + b == a;
    }
  }

  /** One more volume of history: its header, then its listed chapters. */
  lemma RenderNextVolume(line: Entry -> string, vols: seq<Volume>, v: nat, c: nat, i: nat)
    requires v < |vols| && i <= v
    ensures Render(line, EntriesUpTo(vols, v, c, i + 1)) ==
      Render(line, EntriesUpTo(vols, v, c, i)) + line(VolumeEntry(i)) + Render(line, ChapterRun(i, Limit(vols, v, c, i)))
  {
    var head := EntriesUpTo(vols, v, c, i);
    RenderAppend(line, head + [VolumeEntry(i)], ChapterRun(i, Limit(vols, v, c, i)));
    RenderSnoc(line, head, VolumeEntry(i));
  }

  lemma RenderNextChapter(line: Entry -> string, i: nat, j: nat)
    ensures Render(line, ChapterRun(i, j + 1)) == Render(line, ChapterRun(i, j)) + line(ChapterEntry(i, j))
  {
    assert ChapterRun(i, j + 1) == ChapterRun(i, j) + [ChapterEntry(i, j)];
    RenderSnoc(line, ChapterRun(i, j), ChapterEntry(i, j));
  }

  /** The history of everything before chapter `c` of volume `v`, in one format. */
  function History(style: Style, vols: seq<Volume>, v: nat, c: nat): string
    requires v < |vols|
  {
    Render(LineOf(style, vols), Entries(vols, v, c))
  }

  /** One step of a chapter loop: the line of chapter `j` of volume `i` joins the text. */
  method AppendChapterLine(line: Entry -> string, i: nat, j: nat, s0: string, s: string) returns (t: string)
    requires s == s0 + Render(line, ChapterRun(i, j))
    ensures t == s0 + Render(line, ChapterRun(i, j + 1))
  {
    RenderNextChapter(line, i, j);
    t := s + line(ChapterEntry(i, j));
  }

  /** The lines of the first `limit` chapters of volume `i`, appended to `s0`. */
  method AppendChapterLines(line: Entry -> string, i: nat, limit: nat, s0: string) returns (s: string)
    ensures s == s0 + Render(line, ChapterRun(i, limit))
  {
    s := s0;
    var j: nat := 0;
    while j < limit
      invariant j <= limit
      invariant s == s0 + Render(line, ChapterRun(i, j))
    {
      s := AppendChapterLine(line, i, j, s0, s);
      j := j + 1;
    }
  }

  /**
   * The history loop shared by the main window (main_window.py) and the
   * corrector (`_get_past_summaries`): for each volume up to the target's,
   * its header and then its chapters, stopping before the target chapter.
   */
  method AssembleHistory(line: Entry -> string, vols: seq<Volume>, v: nat, c: nat) returns (s: string)
    requires v < |vols| && c <= |vols[v].chapters|
    ensures s == Render(line, Entries(vols, v, c))
  {
    s := "";
    var i: nat := 0;
    while i <= v
      invariant i <= v + 1
      invariant s == Render(line, EntriesUpTo(vols, v, c, i))
    {
      var limit := if i == v then c else |vols[i].chapters|;
      s := AppendChapterLines(line, i, limit, s + line(VolumeEntry(i)));
      RenderNextVolume(line, vols, v, c, i);
      i := i + 1;
    }
  }

  /** The headers of volumes `0 .. n-1`, without their chapters. */
  function VolumeRun(n: nat): (r: seq<Entry>)
    ensures |r| == n
    ensures forall i :: 0 <= i < n ==> r[i] == VolumeEntry(i)
  {
    if n == 0 then [] else VolumeRun(n - 1) + [VolumeEntry(n - 1)]
  }

  /** The loop that lists only the headers of volumes `0 .. n-1`. */
  method AssembleVolumeLines(line: Entry -> string, n: nat, s0: string) returns (s: string)
    ensures s == s0 + Render(line, VolumeRun(n))
  {
    s := s0;
    var i: nat := 0;
    while i < n
      invariant i <= n
      invariant s == s0 + Render(line, VolumeRun(i))
    {
      RenderSnoc(line, VolumeRun(i), VolumeEntry(i));
      s := s + line(VolumeEntry(i));
      i := i + 1;
    }
  }

  const HISTORY_LIMIT: nat := 15000
  const DEGRADED_NOTICE: string := "【注意：因前文过长，此处仅提供过往卷梗概】\n"
  const OPENING: string := "本书刚刚开篇，无过往历史。"

  /**
   * The main window's history for target `(v, c)`: the full history, or
   * only the volume headers when it runs past 15000 characters, or a fixed
   * opening text when it is blank.
   */
  function WindowHistory(vols: seq<Volume>, v: nat, c: nat): string
    requires v < |vols|
  {
    var full := History(WindowStyle, vols, v, c);
    var h := if |full| > HISTORY_LIMIT then DEGRADED_NOTICE + Render(LineOf(WindowStyle, vols), VolumeRun(v + 1)) else full;
    if IsBlank(h) then OPENING else h
  }

  lemma NotBlankAt(s: string, k: nat)
    requires k < |s| && !IsSpace(s[k])
    ensures !IsBlank(s)
  {
  }

  lemma {:induction false} HistoryStartsWithFirstVolume(line: Entry -> string, vols: seq<Volume>, v: nat, c: nat, k: nat)
    requires v < |vols| && 1 <= k <= v + 1
    ensures |line(VolumeEntry(0))| <= |Render(line, EntriesUpTo(vols, v, c, k))|
    ensures Render(line, EntriesUpTo(vols, v, c, k))[..|line(VolumeEntry(0))|] == line(VolumeEntry(0))
  {
    var first := line(VolumeEntry(0));
    if k == 1 {
      RenderNextVolume(line, vols, v, c, 0);
      assert Render(line, EntriesUpTo(vols, v, c, 0)) == "";
    } else {
      HistoryStartsWithFirstVolume(line, vols, v, c, k - 1);
      RenderNextVolume(line, vols, v, c, k - 1);
      var prev := Render(line, EntriesUpTo(vols, v, c, k - 1));
      var more := line(VolumeEntry(k - 1)) + Render(line, ChapterRun(k - 1, Limit(vols, v, c, k - 1)));
      assert Render(line, EntriesUpTo(vols, v, c, k)) == prev + more;
      assert (prev + more)[..|first|] == prev[..|first|];
    }
  }

  /**
   * The opening text is never used by the main window: its history always
   * holds at least the header of the first volume, and the shortened
   * history starts with a notice.
   */
  lemma OpeningUnreachable(vols: seq<Volume>, v: nat, c: nat)
    requires v < |vols|
    ensures var full := History(WindowStyle, vols, v, c);
      WindowHistory(vols, v, c) ==
        if |full| > HISTORY_LIMIT then DEGRADED_NOTICE + Render(LineOf(WindowStyle, vols), VolumeRun(v + 1)) else full
  {
    FullHistoryNotBlank(vols, v, c);
    NoticeNotBlank(Render(LineOf(WindowStyle, vols), VolumeRun(v + 1)));
  }

  /** The main window's full history starts with the first volume's header, so it is never blank. */
  lemma FullHistoryNotBlank(vols: seq<Volume>, v: nat, c: nat)
    requires v < |vols|
    ensures !IsBlank(History(WindowStyle, vols, v, c))
  {
    var line := LineOf(WindowStyle, vols);
    var full := Render(line, EntriesUpTo(vols, v, c, v + 1));
    HistoryStartsWithFirstVolume(line, vols, v, c, v + 1);
    WindowHeaderMark(vols);
    var first := line(VolumeEntry(0));
    assert full[..|first|][1] == full[1];
    NotBlankAt(full, 1);
  }

  /** The first volume's header in the main window's format has `>` as its second character. */
  lemma WindowHeaderMark(vols: seq<Volume>)
    requires |vols| > 0
    ensures |LineOf(WindowStyle, vols)(VolumeEntry(0))| > 1 && LineOf(WindowStyle, vols)(VolumeEntry(0))[1] == '>'
  {
    var first := Line(WindowStyle, vols, VolumeEntry(0));
    assert first == "\n> " + vols[0].name + " (梗概: " + vols[0].synopsis + ")\n";
  }

  lemma NoticeNotBlank(rest: string)
    ensures !IsBlank(DEGRADED_NOTICE + rest)
  {
    NotBlankAt(DEGRADED_NOTICE + rest, 0);
  }

  /** The last volume below `k` that has chapters. */
  function LastNonEmptyBelow(vols: seq<Volume>, k: nat): (r: Option<nat>)
    requires k <= |vols|
    ensures r.Some? ==> r.value < k && |vols[r.value].chapters| > 0
    ensures r.Some? ==> forall i :: r.value < i < k ==> |vols[i].chapters| == 0
    ensures r.None? ==> forall i :: 0 <= i < k ==> |vols[i].chapters| == 0
  {
    if k == 0 then None
    else if |vols[k - 1].chapters| > 0 then Some(k - 1)
    else LastNonEmptyBelow(vols, k - 1)
  }

  /**
   * The chapter the target continues: the one before it in its volume, or
   * the last chapter of the nearest earlier volume that has chapters.
   */
  function PrevChapter(vols: seq<Volume>, v: nat, c: nat): (r: Option<(nat, nat)>)
    requires v < |vols| && c <= |vols[v].chapters|
    ensures r.Some? ==> r.value.0 < |vols| && r.value.1 < |vols[r.value.0].chapters|
  {
    if c > 0 then Some((v, c - 1))
    else match LastNonEmptyBelow(vols, v)
      case None => None
      case Some(i) => Some((i, |vols[i].chapters| - 1))
  }

  /** Chapter `(i, j)` comes no later than chapter `(p, q)`. */
  predicate NoLater(i: nat, j: nat, p: nat, q: nat) {
    i < p || (i == p && j <= q)
  }

  /**
   * The chapter the target continues is the latest chapter before it, and
   * there is none exactly when no chapter comes before the target.
   */
  lemma PrevChapterIsLatestEarlier(vols: seq<Volume>, v: nat, c: nat)
    requires v < |vols| && c <= |vols[v].chapters|
    ensures PrevChapter(vols, v, c).None? <==> forall i: nat, j: nat :: !IsEarlier(vols, i, j, v, c)
    ensures PrevChapter(vols, v, c).Some? ==>
      var (p, q) := PrevChapter(vols, v, c).value;
      IsEarlier(vols, p, q, v, c) &&
      forall i: nat, j: nat :: IsEarlier(vols, i, j, v, c) ==> NoLater(i, j, p, q)
  {
    var r := PrevChapter(vols, v, c);
    if c == 0 {
      match LastNonEmptyBelow(vols, v)
      case None =>
      case Some(k) =>
        assert IsEarlier(vols, k, |vols[k].chapters| - 1, v, c);
    } else {
      assert IsEarlier(vols, v, c - 1, v, c);
    }
  }

  /** The backward search of main_window.py (and of the autopilot) for the chapter the target continues. */
  method FindPrevChapter(vols: seq<Volume>, v: nat, c: nat) returns (prev: Option<(nat, nat)>)
    requires v < |vols| && c <= |vols[v].chapters|
    ensures prev == PrevChapter(vols, v, c)
  {
    if c > 0 {
      return Some((v, c - 1));
    }
    var i: nat := v;
    while i > 0
      invariant i <= v
      invariant LastNonEmptyBelow(vols, i) == LastNonEmptyBelow(vols, v)
    {
      if |vols[i - 1].chapters| > 0 {
        return Some((i - 1, |vols[i - 1].chapters| - 1));
      }
      i := i - 1;
    }
    return None;
  }

  const TAIL_LIMIT: nat := 1500
  const ELISION: string := "...(前文省略)...\n"

  /**
   * The quoted end of the previous chapter: the whole text when it is at
   * most 1500 characters, else an elision mark and its last 1500 characters.
   */
  function PreviousTail(text: string): (r: string)
    ensures |text| <= TAIL_LIMIT ==> r == text
    ensures |text| > TAIL_LIMIT ==> |r| == |ELISION| + TAIL_LIMIT
    ensures |text| > TAIL_LIMIT ==> r[..|ELISION|] == ELISION && r[|ELISION|..] == text[|text| - TAIL_LIMIT..]
  {
    if |text| > TAIL_LIMIT then ELISION + text[|text| - TAIL_LIMIT..] else text
  }
}
