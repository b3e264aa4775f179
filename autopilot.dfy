/**
 * `AutoPilotWorker`: plans the missing volumes, then the missing chapters of
 * every volume, then writes every chapter that has no text yet. Each plan
 * is merged under rules that protect what the author wrote: a synopsis is
 * only ever replaced by a longer one, and a proposal whose name is taken is
 * skipped.
 */
module Autopilot {
  import opened Text
  import opened DataManager
  import opened Context
  import opened Delimiter
  import opened UiComponents
  import opened Window
  import opened Workers

  /** Volume planning is skipped from this many volumes on (when none is short). */
  const VOLUME_QUOTA: nat := 5
  /** Chapter planning of a volume is skipped from this many chapters on (when none is blank). */
  const CHAPTER_QUOTA: nat := 4
  /** A synopsis shorter than this, once stripped, counts as missing. */
  const SHORT_LENGTH: nat := 10
  /** A chapter whose stripped text is longer than this counts as written. */
  const WRITTEN_LENGTH: nat := 100

  predicate Short(s: string) {
    |Strip(s)| < SHORT_LENGTH
  }

  /** The volume plan is complete: enough volumes and none with a missing synopsis. */
  predicate VolumesPlanned(vols: seq<Volume>) {
    |vols| >= VOLUME_QUOTA && forall i :: 0 <= i < |vols| ==> !Short(vols[i].synopsis)
  }

  /** A chapter with neither an AI synopsis nor an author's synopsis worth the name. */
  predicate BlankChapter(ch: Chapter) {
    Short(ch.aiSynopsis) && Short(ch.synopsis)
  }

  /** The chapter plan of a volume is complete: enough chapters and none blank. */
  predicate ChaptersPlanned(vol: Volume) {
    |vol.chapters| >= CHAPTER_QUOTA && forall j :: 0 <= j < |vol.chapters| ==> !BlankChapter(vol.chapters[j])
  }

  /** A chapter text the autopilot leaves alone. */
  predicate Written(text: string) {
    |Strip(text)| > WRITTEN_LENGTH
  }

  predicate ShortVolume(vol: Volume) {
    Short(vol.synopsis)
  }

  /** Some element below `i` satisfies `p`. */
  predicate AnyBelow<T>(s: seq<T>, p: T -> bool, i: nat)
    requires i <= |s|
    decreases i
  {
    i > 0 && (p(s[i - 1]) || AnyBelow(s, p, i - 1))
  }

  lemma {:induction false} AnyBelowExists<T>(s: seq<T>, p: T -> bool, i: nat)
    requires i <= |s|
    ensures AnyBelow(s, p, i) <==> exists k :: 0 <= k < i && p(s[k])
    decreases i
  {
    if i > 0 {
      AnyBelowExists(s, p, i - 1);
      if p(s[i - 1]) {
        assert 0 <= i - 1 < i && p(s[i - 1]);
      }
    }
  }

  /** A left-to-right scan for an element satisfying `p`. */
  method FindAny<T>(s: seq<T>, p: T -> bool) returns (found: bool)
    ensures found <==> exists k :: 0 <= k < |s| && p(s[k])
  {
    found := false;
    var i := 0;
    while i < |s|
      invariant i <= |s|
      invariant found == AnyBelow(s, p, i)
    {
      if p(s[i]) {
        found := true;
      }
      i := i + 1;
    }
    AnyBelowExists(s, p, |s|);
  }

  /** The scan of `_plan_volumes` for a volume with a missing synopsis. */
  method HasShortVolume(vols: seq<Volume>) returns (found: bool)
    ensures found <==> exists i :: 0 <= i < |vols| && Short(vols[i].synopsis)
    ensures !found && |vols| >= VOLUME_QUOTA <==> VolumesPlanned(vols)
  {
    found := FindAny(vols, ShortVolume);
    assert forall i :: 0 <= i < |vols| ==> (ShortVolume(vols[i]) <==> Short(vols[i].synopsis));
  }

  /** The scan of `_plan_chapters` for a blank chapter of one volume. */
  method HasBlankChapter(vol: Volume) returns (found: bool)
    ensures found <==> exists j :: 0 <= j < |vol.chapters| && BlankChapter(vol.chapters[j])
    ensures !found && |vol.chapters| >= CHAPTER_QUOTA <==> ChaptersPlanned(vol)
  {
    found := FindAny(vol.chapters, BlankChapter);
  }

  /** One entry of a plan: a volume or chapter name and its proposed synopsis. */
  datatype Proposal = Proposal(name: string, synopsis: string)

  /** A planner's reply: synopses for existing entries, and new entries. */
  datatype Plan = Plan(updated: seq<Proposal>, added: seq<Proposal>)

  function VolumeNames(vols: seq<Volume>): (r: seq<string>)
    ensures |r| == |vols| && forall i :: 0 <= i < |vols| ==> r[i] == vols[i].name
  {
    seq(|vols|, i requires 0 <= i < |vols| => vols[i].name)
  }

  function ChapterNames(chs: seq<Chapter>): (r: seq<string>)
    ensures |r| == |chs| && forall j :: 0 <= j < |chs| ==> r[j] == chs[j].name
  {
    seq(|chs|, j requires 0 <= j < |chs| => chs[j].name)
  }

  /** Entry `i` is the first one called `name`. */
  predicate FirstNamed(names: seq<string>, i: nat, name: string) {
    i < |names| && names[i] == name && forall k :: 0 <= k < i ==> names[k] != name
  }

  /** The position of the first entry called `name`, if any. */
  function FirstIndex(names: seq<string>, name: string): (r: Option<nat>)
    ensures r.Some? ==> FirstNamed(names, r.value, name)
    ensures r.None? ==> forall k :: 0 <= k < |names| ==> names[k] != name
  {
    if |names| == 0 then None
    else if names[0] == name then Some(0)
    else match FirstIndex(names[1..], name)
      case None => None
      case Some(i) => Some(i + 1)
  }

  /** The inner search loop of both merges: the first entry of that name, as `break` leaves it. */
  method FindByName(names: seq<string>, name: string) returns (r: Option<nat>)
    ensures r == FirstIndex(names, name)
  {
    var i := 0;
    while i < |names|
      invariant i <= |names|
      invariant forall k :: 0 <= k < i ==> names[k] != name
    {
      if names[i] == name {
        return Some(i);
      }
      i := i + 1;
    }
    return None;
  }

  /**
   * One proposed volume synopsis: it goes to the first volume of that name,
   * and only when it is longer than the synopsis that volume has.
   */
  function UpdateVolume(vols: seq<Volume>, p: Proposal): (r: seq<Volume>)
    ensures |r| == |vols|
    ensures forall i :: 0 <= i < |vols| ==>
      r[i] == if FirstNamed(VolumeNames(vols), i, p.name) && |vols[i].synopsis| < |p.synopsis|
        then vols[i].(synopsis := p.synopsis) else vols[i]
  {
    match FirstIndex(VolumeNames(vols), p.name)
    case None => vols
    case Some(i) => if |vols[i].synopsis| < |p.synopsis| then vols[i := vols[i].(synopsis := p.synopsis)] else vols
  }

  function UpdateVolumes(vols: seq<Volume>, ps: seq<Proposal>): seq<Volume>
    decreases |ps|
  {
    if |ps| == 0 then vols else UpdateVolume(UpdateVolumes(vols, ps[..|ps| - 1]), ps[|ps| - 1])
  }

  /**
   * The synopsis updates never rename, reorder or re-chapter a volume; a
   * synopsis changes only to a strictly longer one proposed under the
   * volume's own name.
   */
  lemma {:induction false} UpdateVolumesKeepsOutline(vols: seq<Volume>, ps: seq<Proposal>)
    ensures var r := UpdateVolumes(vols, ps);
      |r| == |vols| &&
      forall i :: 0 <= i < |vols| ==>
        r[i].name == vols[i].name && r[i].chapters == vols[i].chapters &&
        (r[i].synopsis == vols[i].synopsis ||
         (|r[i].synopsis| > |vols[i].synopsis| &&
          exists k :: 0 <= k < |ps| && ps[k].name == vols[i].name && ps[k].synopsis == r[i].synopsis))
    decreases |ps|
  {
    if |ps| > 0 {
      var init := ps[..|ps| - 1];
      var mid := UpdateVolumes(vols, init);
      UpdateVolumesKeepsOutline(vols, init);
      var r := UpdateVolume(mid, ps[|ps| - 1]);
      forall i | 0 <= i < |vols|
        ensures r[i].synopsis == vols[i].synopsis ||
          (|r[i].synopsis| > |vols[i].synopsis| &&
           exists k :: 0 <= k < |ps| && ps[k].name == vols[i].name && ps[k].synopsis == r[i].synopsis)
      {
        if r[i].synopsis != mid[i].synopsis {
          assert ps[|ps| - 1].name == vols[i].name;
        } else if mid[i].synopsis != vols[i].synopsis {
          var k :| 0 <= k < |init| && init[k].name == vols[i].name && init[k].synopsis == mid[i].synopsis;
          assert ps[k] == init[k];
        }
      }
    }
  }

  /** One proposed new volume: appended with no chapters unless a volume of that name exists. */
  function AddVolume(vols: seq<Volume>, p: Proposal): seq<Volume> {
    if p.name in VolumeNames(vols) then vols else vols + [Volume(p.name, p.synopsis, [])]
  }

  function AddVolumes(vols: seq<Volume>, ps: seq<Proposal>): seq<Volume>
    decreases |ps|
  {
    if |ps| == 0 then vols else AddVolume(AddVolumes(vols, ps[..|ps| - 1]), ps[|ps| - 1])
  }

  /**
   * Adding volumes keeps the existing ones in place, appends only empty
   * volumes taken from the proposals, never repeats a name, and leaves
   * every proposed name in the book.
   */
  lemma {:induction false} AddVolumesExtends(vols: seq<Volume>, ps: seq<Proposal>)
    ensures var r := AddVolumes(vols, ps);
      |vols| <= |r| && r[..|vols|] == vols &&
      (forall i :: |vols| <= i < |r| ==> r[i].chapters == [] && Proposal(r[i].name, r[i].synopsis) in ps) &&
      (Distinct(VolumeNames(vols)) ==> Distinct(VolumeNames(r))) &&
      forall k :: 0 <= k < |ps| ==> ps[k].name in VolumeNames(r)
    decreases |ps|
  {
    if |ps| > 0 {
      var init, p := ps[..|ps| - 1], ps[|ps| - 1];
      var mid := AddVolumes(vols, init);
      AddVolumesExtends(vols, init);
      AddVolumeStep(mid, p);
      var r := AddVolume(mid, p);
      assert r[..|vols|] == mid[..|vols|];
      forall k | 0 <= k < |ps| ensures ps[k].name in VolumeNames(r) {
        if k < |init| {
          assert ps[k] == init[k];
          var a :| 0 <= a < |mid| && VolumeNames(mid)[a] == ps[k].name;
          assert r[..|mid|][a] == r[a];
          assert VolumeNames(r)[a] == ps[k].name;
        }
      }
      forall i | |vols| <= i < |r| ensures r[i].chapters == [] && Proposal(r[i].name, r[i].synopsis) in ps {
        if i < |mid| {
          assert r[..|mid|][i] == r[i];
          assert Proposal(mid[i].name, mid[i].synopsis) in init;
        } else {
          assert Proposal(r[i].name, r[i].synopsis) == ps[|ps| - 1];
        }
      }
    }
  }

  /** One proposed volume: the existing volumes kept in place, at most that volume appended, empty, its name then present. */
  lemma AddVolumeStep(vols: seq<Volume>, p: Proposal)
    ensures var r := AddVolume(vols, p);
      |vols| <= |r| && r[..|vols|] == vols &&
      (forall i :: |vols| <= i < |r| ==> r[i] == Volume(p.name, p.synopsis, [])) &&
      (Distinct(VolumeNames(vols)) ==> Distinct(VolumeNames(r))) &&
      p.name in VolumeNames(r)
  {
    var r := AddVolume(vols, p);
    if p.name !in VolumeNames(vols) {
      assert r[..|vols|] == vols;
      assert VolumeNames(r) == VolumeNames(vols) + [p.name];
      if Distinct(VolumeNames(vols)) {
        DistinctSnoc(VolumeNames(vols), p.name);
      }
      assert VolumeNames(r)[|vols|] == p.name;
    }
  }

  lemma DistinctSnoc<T>(s: seq<T>, x: T)
    requires Distinct(s) && x !in s
    ensures Distinct(s + [x])
  {
    var r := s + [x];
    forall a, b | 0 <= a < b < |r| ensures r[a] != r[b] {
      assert r[a] == s[a];
      if b == |s| {
        assert r[b] == x;
      } else {
        assert r[b] == s[b];
      }
    }
  }

  /**
   * One proposed chapter synopsis: it becomes the AI synopsis of the first
   * chapter of that name when it is longer than the AI synopsis there, as
   * `auto_update_chapter` applies it.
   */
  function UpdateChapter(vol: Volume, p: Proposal): (r: Volume)
    ensures r.name == vol.name && r.synopsis == vol.synopsis && |r.chapters| == |vol.chapters|
    ensures forall j :: 0 <= j < |vol.chapters| ==>
      r.chapters[j] == if FirstNamed(ChapterNames(vol.chapters), j, p.name) && |vol.chapters[j].aiSynopsis| < |p.synopsis|
        then AutoUpdated(vol.chapters[j], p.synopsis) else vol.chapters[j]
  {
    match FirstIndex(ChapterNames(vol.chapters), p.name)
    case None => vol
    case Some(j) =>
      if |vol.chapters[j].aiSynopsis| < |p.synopsis|
      then vol.(chapters := vol.chapters[j := AutoUpdated(vol.chapters[j], p.synopsis)])
      else vol
  }

  function UpdateChapters(vol: Volume, ps: seq<Proposal>): Volume
    decreases |ps|
  {
    if |ps| == 0 then vol else UpdateChapter(UpdateChapters(vol, ps[..|ps| - 1]), ps[|ps| - 1])
  }

  /**
   * The synopsis updates keep every chapter's name and place and never
   * touch a synopsis the author wrote; an AI synopsis changes only to a
   * strictly longer one proposed under the chapter's own name.
   */
  lemma {:induction false} UpdateChaptersKeepsAuthor(vol: Volume, ps: seq<Proposal>)
    ensures var r := UpdateChapters(vol, ps);
      r.name == vol.name && r.synopsis == vol.synopsis && |r.chapters| == |vol.chapters| &&
      forall j :: 0 <= j < |vol.chapters| ==>
        r.chapters[j].name == vol.chapters[j].name &&
        (!IsBlank(vol.chapters[j].synopsis) ==> r.chapters[j].synopsis == vol.chapters[j].synopsis) &&
        (r.chapters[j].aiSynopsis == vol.chapters[j].aiSynopsis ||
         (|r.chapters[j].aiSynopsis| > |vol.chapters[j].aiSynopsis| &&
          exists k :: 0 <= k < |ps| && ps[k].name == vol.chapters[j].name && ps[k].synopsis == r.chapters[j].aiSynopsis))
    decreases |ps|
  {
    if |ps| > 0 {
      var init := ps[..|ps| - 1];
      var mid := UpdateChapters(vol, init);
      UpdateChaptersKeepsAuthor(vol, init);
      var r := UpdateChapter(mid, ps[|ps| - 1]);
      forall j | 0 <= j < |vol.chapters|
        ensures r.chapters[j].aiSynopsis == vol.chapters[j].aiSynopsis ||
          (|r.chapters[j].aiSynopsis| > |vol.chapters[j].aiSynopsis| &&
           exists k :: 0 <= k < |ps| && ps[k].name == vol.chapters[j].name && ps[k].synopsis == r.chapters[j].aiSynopsis)
      {
        if r.chapters[j].aiSynopsis != mid.chapters[j].aiSynopsis {
          assert ps[|ps| - 1].name == vol.chapters[j].name;
        } else if mid.chapters[j].aiSynopsis != vol.chapters[j].aiSynopsis {
          var k :| 0 <= k < |init| && init[k].name == vol.chapters[j].name && init[k].synopsis == mid.chapters[j].aiSynopsis;
          assert ps[k] == init[k];
        }
      }
    }
  }

  /** One proposed new chapter: appended, with its synopsis as both synopses, unless the volume has a chapter of that name. */
  function AddChapter(vol: Volume, p: Proposal): Volume {
    if p.name in ChapterNames(vol.chapters) then vol else WithChapter(vol, Chapter(p.name, p.synopsis, p.synopsis))
  }

  function AddChapters(vol: Volume, ps: seq<Proposal>): Volume
    decreases |ps|
  {
    if |ps| == 0 then vol else AddChapter(AddChapters(vol, ps[..|ps| - 1]), ps[|ps| - 1])
  }

  /**
   * Adding chapters keeps the existing ones in place, appends only chapters
   * taken from the proposals, never repeats a name, and leaves every
   * proposed name in the volume.
   */
  lemma {:induction false} AddChaptersExtends(vol: Volume, ps: seq<Proposal>)
    ensures var r := AddChapters(vol, ps);
      r.name == vol.name && r.synopsis == vol.synopsis &&
      |vol.chapters| <= |r.chapters| && r.chapters[..|vol.chapters|] == vol.chapters &&
      (forall j :: |vol.chapters| <= j < |r.chapters| ==>
        r.chapters[j].synopsis == r.chapters[j].aiSynopsis && Proposal(r.chapters[j].name, r.chapters[j].synopsis) in ps) &&
      (Distinct(ChapterNames(vol.chapters)) ==> Distinct(ChapterNames(r.chapters))) &&
      forall k :: 0 <= k < |ps| ==> ps[k].name in ChapterNames(r.chapters)
    decreases |ps|
  {
    if |ps| > 0 {
      var init, p := ps[..|ps| - 1], ps[|ps| - 1];
      var mid := AddChapters(vol, init);
      AddChaptersExtends(vol, init);
      AddChapterStep(mid, p);
      var r := AddChapter(mid, p);
      assert r.chapters[..|vol.chapters|] == mid.chapters[..|vol.chapters|];
      forall k | 0 <= k < |ps| ensures ps[k].name in ChapterNames(r.chapters) {
        if k < |init| {
          assert ps[k] == init[k];
          var a :| 0 <= a < |mid.chapters| && ChapterNames(mid.chapters)[a] == ps[k].name;
          assert r.chapters[..|mid.chapters|][a] == r.chapters[a];
          assert ChapterNames(r.chapters)[a] == ps[k].name;
        }
      }
      forall j | |vol.chapters| <= j < |r.chapters|
        ensures r.chapters[j].synopsis == r.chapters[j].aiSynopsis && Proposal(r.chapters[j].name, r.chapters[j].synopsis) in ps
      {
        if j < |mid.chapters| {
          assert r.chapters[..|mid.chapters|][j] == r.chapters[j];
          assert Proposal(mid.chapters[j].name, mid.chapters[j].synopsis) in init;
        } else {
          assert Proposal(r.chapters[j].name, r.chapters[j].synopsis) == ps[|ps| - 1];
        }
      }
    }
  }

  /** One proposed chapter: the existing chapters kept in place, at most that chapter appended, its name then present. */
  lemma AddChapterStep(vol: Volume, p: Proposal)
    ensures var r := AddChapter(vol, p);
      r.name == vol.name && r.synopsis == vol.synopsis &&
      |vol.chapters| <= |r.chapters| && r.chapters[..|vol.chapters|] == vol.chapters &&
      (forall j :: |vol.chapters| <= j < |r.chapters| ==> r.chapters[j] == Chapter(p.name, p.synopsis, p.synopsis)) &&
      (Distinct(ChapterNames(vol.chapters)) ==> Distinct(ChapterNames(r.chapters))) &&
      p.name in ChapterNames(r.chapters)
  {
    var r := AddChapter(vol, p);
    if p.name !in ChapterNames(vol.chapters) {
      assert r.chapters[..|vol.chapters|] == vol.chapters;
      assert ChapterNames(r.chapters) == ChapterNames(vol.chapters) + [p.name];
      if Distinct(ChapterNames(vol.chapters)) {
        DistinctSnoc(ChapterNames(vol.chapters), p.name);
      }
      assert ChapterNames(r.chapters)[|vol.chapters|] == p.name;
    }
  }

  /** How many checks the two merge loops of one plan make, starting with check `k`. */
  function PlanChecks(plan: Plan, k: nat, cancelAt: nat): nat {
    var c1 := Checks(k, cancelAt, |plan.updated|);
    c1 + Checks(k + c1, cancelAt, |plan.added|)
  }

  /** The volumes after `_plan_volumes` merges a plan, its loops reading the flag from check `k` on. */
  function PlannedVolumes(vols: seq<Volume>, plan: Plan, k: nat, cancelAt: nat): seq<Volume> {
    var c1 := Checks(k, cancelAt, |plan.updated|);
    AddVolumes(UpdateVolumes(vols, plan.updated[..Reached(k, cancelAt, |plan.updated|)]),
      plan.added[..Reached(k + c1, cancelAt, |plan.added|)])
  }

  /**
   * What volume planning does to a book, stopped or not: existing volumes
   * keep their place, name and chapters and their synopses never shrink,
   * new volumes come empty, and no volume name is repeated that was not
   * already. When the stop request comes after both loops, the whole plan
   * is merged and every proposed volume is in the book.
   */
  lemma PlannedVolumesKeepBook(vols: seq<Volume>, plan: Plan, k: nat, cancelAt: nat)
    ensures var r := PlannedVolumes(vols, plan, k, cancelAt);
      |vols| <= |r| &&
      (forall i :: 0 <= i < |vols| ==>
        r[i].name == vols[i].name && r[i].chapters == vols[i].chapters && |r[i].synopsis| >= |vols[i].synopsis|) &&
      (forall i :: |vols| <= i < |r| ==> r[i].chapters == []) &&
      (Distinct(VolumeNames(vols)) ==> Distinct(VolumeNames(r)))
    ensures k + |plan.updated| + |plan.added| <= cancelAt ==>
      PlannedVolumes(vols, plan, k, cancelAt) == AddVolumes(UpdateVolumes(vols, plan.updated), plan.added) &&
      forall j :: 0 <= j < |plan.added| ==> plan.added[j].name in VolumeNames(PlannedVolumes(vols, plan, k, cancelAt))
  {
    var m1 := Reached(k, cancelAt, |plan.updated|);
    var c1 := Checks(k, cancelAt, |plan.updated|);
    var m2 := Reached(k + c1, cancelAt, |plan.added|);
    assert PlannedVolumes(vols, plan, k, cancelAt) == AddVolumes(UpdateVolumes(vols, plan.updated[..m1]), plan.added[..m2]);
    MergedVolumesKeepBook(vols, plan.updated[..m1], plan.added[..m2]);
    if k + |plan.updated| + |plan.added| <= cancelAt {
      assert plan.updated[..m1] == plan.updated;
      assert plan.added[..m2] == plan.added;
    }
  }

  /** Volume planning's merge of any updates and additions, as `PlannedVolumesKeepBook` states it. */
  lemma MergedVolumesKeepBook(vols: seq<Volume>, us: seq<Proposal>, adds: seq<Proposal>)
    ensures var r := AddVolumes(UpdateVolumes(vols, us), adds);
      |vols| <= |r| &&
      (forall i :: 0 <= i < |vols| ==>
        r[i].name == vols[i].name && r[i].chapters == vols[i].chapters && |r[i].synopsis| >= |vols[i].synopsis|) &&
      (forall i :: |vols| <= i < |r| ==> r[i].chapters == []) &&
      (Distinct(VolumeNames(vols)) ==> Distinct(VolumeNames(r))) &&
      forall j :: 0 <= j < |adds| ==> adds[j].name in VolumeNames(r)
  {
    var mid := UpdateVolumes(vols, us);
    UpdateVolumesKeepsOutline(vols, us);
    AddVolumesExtends(mid, adds);
    assert VolumeNames(mid) == VolumeNames(vols);
    var r := AddVolumes(mid, adds);
    forall i | 0 <= i < |vols| ensures r[i] == mid[i] {
      assert r[..|mid|][i] == r[i];
    }
  }

  /** A volume before and after chapter planning: chapters only appended, names and authors' synopses kept. */
  predicate VolumeGrown(a: Volume, b: Volume) {
    b.name == a.name && b.synopsis == a.synopsis && |a.chapters| <= |b.chapters| &&
    (Distinct(ChapterNames(a.chapters)) ==> Distinct(ChapterNames(b.chapters))) &&
    forall j :: 0 <= j < |a.chapters| ==>
      b.chapters[j].name == a.chapters[j].name &&
      (!IsBlank(a.chapters[j].synopsis) ==> b.chapters[j].synopsis == a.chapters[j].synopsis)
  }

  /** The book before and after chapter planning: the same volumes, each grown. */
  predicate Grown(a: seq<Volume>, b: seq<Volume>) {
    |a| == |b| && forall i :: 0 <= i < |a| ==> VolumeGrown(a[i], b[i])
  }

  lemma GrownTrans(a: seq<Volume>, b: seq<Volume>, c: seq<Volume>)
    requires Grown(a, b) && Grown(b, c)
    ensures Grown(a, c)
  {
    forall i | 0 <= i < |a| ensures VolumeGrown(a[i], c[i]) {
      VolumeGrownTrans(a[i], b[i], c[i]);
    }
  }

  /** Growing one volume grows the book. */
  lemma GrownAt(vols: seq<Volume>, v: nat, w: Volume)
    requires v < |vols| && VolumeGrown(vols[v], w)
    ensures Grown(vols, vols[v := w])
  {
    forall i | 0 <= i < |vols| && i != v ensures VolumeGrown(vols[i], vols[v := w][i]) {
      assert vols[v := w][i] == vols[i];
    }
  }

  /** The chapter files before and after: every existing file kept, and any new one empty. */
  predicate Extends(a: Store, b: Store) {
    (forall key :: key in a ==> key in b && b[key] == a[key]) &&
    forall key :: key in b && key !in a ==> b[key] == []
  }

  /** A volume after `_plan_chapters` merges a plan, its loops reading the flag from check `k` on. */
  function PlannedChapters(vol: Volume, plan: Plan, k: nat, cancelAt: nat): Volume {
    var c1 := Checks(k, cancelAt, |plan.updated|);
    AddChapters(UpdateChapters(vol, plan.updated[..Reached(k, cancelAt, |plan.updated|)]),
      plan.added[..Reached(k + c1, cancelAt, |plan.added|)])
  }

  /**
   * What chapter planning does to a volume, stopped or not: the volume
   * keeps its name and synopsis, existing chapters keep their place, name
   * and author's synopsis, and no chapter name is repeated that was not
   * already. When the stop request comes after both loops, the whole plan
   * is merged and every proposed chapter is in the volume.
   */
  lemma PlannedChaptersKeepVolume(vol: Volume, plan: Plan, k: nat, cancelAt: nat)
    ensures VolumeGrown(vol, PlannedChapters(vol, plan, k, cancelAt))
    ensures k + |plan.updated| + |plan.added| <= cancelAt ==>
      PlannedChapters(vol, plan, k, cancelAt) == AddChapters(UpdateChapters(vol, plan.updated), plan.added) &&
      forall j :: 0 <= j < |plan.added| ==> plan.added[j].name in ChapterNames(PlannedChapters(vol, plan, k, cancelAt).chapters)
  {
    var m1 := Reached(k, cancelAt, |plan.updated|);
    var c1 := Checks(k, cancelAt, |plan.updated|);
    var m2 := Reached(k + c1, cancelAt, |plan.added|);
    MergedChaptersGrow(vol, plan.updated[..m1], plan.added[..m2]);
    if k + |plan.updated| + |plan.added| <= cancelAt {
      assert plan.updated[..m1] == plan.updated;
      assert plan.added[..m2] == plan.added;
      AddChaptersExtends(UpdateChapters(vol, plan.updated), plan.added);
    }
  }

  /** Chapter planning's merge of any updates and additions grows the volume. */
  lemma MergedChaptersGrow(vol: Volume, us: seq<Proposal>, adds: seq<Proposal>)
    ensures VolumeGrown(vol, AddChapters(UpdateChapters(vol, us), adds))
  {
    var mid := UpdateChapters(vol, us);
    UpdateChaptersGrow(vol, us);
    AddChaptersGrow(mid, adds);
    VolumeGrownTrans(vol, mid, AddChapters(mid, adds));
  }

  lemma UpdateChaptersGrow(vol: Volume, ps: seq<Proposal>)
    ensures VolumeGrown(vol, UpdateChapters(vol, ps))
  {
    UpdateChaptersKeepsAuthor(vol, ps);
    assert ChapterNames(UpdateChapters(vol, ps).chapters) == ChapterNames(vol.chapters);
  }

  lemma AddChaptersGrow(vol: Volume, ps: seq<Proposal>)
    ensures VolumeGrown(vol, AddChapters(vol, ps))
  {
    AddChaptersExtends(vol, ps);
    var r := AddChapters(vol, ps);
    forall j | 0 <= j < |vol.chapters| ensures r.chapters[j] == vol.chapters[j] {
      assert r.chapters[..|vol.chapters|][j] == r.chapters[j];
    }
  }

  lemma VolumeGrownTrans(a: Volume, b: Volume, c: Volume)
    requires VolumeGrown(a, b) && VolumeGrown(b, c)
    ensures VolumeGrown(a, c)
  {
    forall j | 0 <= j < |a.chapters| && !IsBlank(a.chapters[j].synopsis)
      ensures c.chapters[j].synopsis == a.chapters[j].synopsis
    {
      assert !IsBlank(b.chapters[j].synopsis);
    }
  }

  const NO_DIRECTIVE: string := "无"

  /**
   * The plot the chapter must carry out: the author's synopsis, else the
   * AI synopsis, else a fixed word; both stripped, and never blank.
   */
  function Directive(ch: Chapter): (r: string)
    ensures !IsBlank(r)
    ensures !IsBlank(ch.synopsis) ==> r == Strip(ch.synopsis)
    ensures IsBlank(ch.synopsis) && !IsBlank(ch.aiSynopsis) ==> r == Strip(ch.aiSynopsis)
    ensures IsBlank(ch.synopsis) && IsBlank(ch.aiSynopsis) ==> r == NO_DIRECTIVE
  {
    StripIdempotent(ch.synopsis);
    StripIdempotent(ch.aiSynopsis);
    var user, ai := Strip(ch.synopsis), Strip(ch.aiSynopsis);
    if user != "" then user
    else if ai != "" then ai
    else
      assert !IsSpace(NO_DIRECTIVE[0]);
      NO_DIRECTIVE
  }

  /**
   * What the autopilot tells the model for one chapter besides the fixed
   * wording: the outline, the cast, the AI synopses of earlier chapters,
   * the stripped end of the previous chapter ("" when that block is left
   * out), the target's names and the plot it must carry out.
   */
  datatype Brief = Brief(
    globalSynopsis: string,
    characters: seq<Character>,
    history: string,
    previous: string,
    volumeName: string,
    chapterName: string,
    directive: string)

  /** The brief for chapter `(v, c)` of a book whose chapter files are `store`. */
  function BriefFor(meta: Meta, store: Store, v: nat, c: nat): Brief
    requires ChapterAt(meta.volumes, v, c)
  {
    var vol := meta.volumes[v];
    Brief(meta.globalSynopsis, meta.characters, History(AutopilotStyle, meta.volumes, v, c),
      Strip(PreviousText(meta.volumes, store, v, c)), vol.name, vol.chapters[c].name, Directive(vol.chapters[c]))
  }

  /** No chapter of the volumes before `i` is listed in the history for `(v, c)`. */
  predicate NoneListed(vols: seq<Volume>, v: nat, c: nat, i: nat)
    requires i <= v + 1 && v < |vols|
  {
    forall k :: 0 <= k < i ==> Limit(vols, v, c, k) == 0
  }

  /** No chapter comes before `(v, c)` when the history lists no chapter of any volume up to `v`. */
  lemma NothingListedNoPrevious(vols: seq<Volume>, v: nat, c: nat)
    requires v < |vols| && c <= |vols[v].chapters|
    requires NoneListed(vols, v, c, v + 1)
    ensures PrevChapter(vols, v, c) == None
  {
    forall p: nat, q: nat ensures !IsEarlier(vols, p, q, v, c) {
      if p <= v {
        assert Limit(vols, v, c, p) == 0;
      }
    }
    PrevChapterIsLatestEarlier(vols, v, c);
  }

  /**
   * The inner loop of the history: the lines of the first `limit` chapters
   * of volume `i`, with the previous chapter looked up after each line.
   */
  method AutopilotLines(line: Entry -> string, vols: seq<Volume>, v: nat, c: nat, i: nat, limit: nat, s0: string, prev0: Option<(nat, nat)>)
    returns (s: string, prev: Option<(nat, nat)>)
    requires v < |vols| && c <= |vols[v].chapters|
    ensures s == s0 + Render(line, ChapterRun(i, limit))
    ensures limit == 0 ==> prev == prev0
    ensures limit > 0 ==> prev == PrevChapter(vols, v, c)
  {
    ghost var found := PrevChapter(vols, v, c);
    s, prev := s0, prev0;
    var j: nat := 0;
    while j < limit
      invariant j <= limit
      invariant s == s0 + Render(line, ChapterRun(i, j))
      invariant j == 0 ==> prev == prev0
      invariant j > 0 ==> prev == found
    {
      s, prev := AutopilotLine(line, vols, v, c, i, j, s0, s);
      j := j + 1;
    }
  }

  /** One pass of that loop: chapter `j`'s line, then the lookup. */
  method AutopilotLine(line: Entry -> string, vols: seq<Volume>, v: nat, c: nat, i: nat, j: nat, s0: string, s: string)
    returns (t: string, prev: Option<(nat, nat)>)
    requires v < |vols| && c <= |vols[v].chapters|
    requires s == s0 + Render(line, ChapterRun(i, j))
    ensures t == s0 + Render(line, ChapterRun(i, j + 1))
    ensures prev == PrevChapter(vols, v, c)
  {
    t := AppendChapterLine(line, i, j, s0, s);
    prev := FindPrevChapter(vols, v, c);
  }

  /** One pass of the outer history loop: volume `i`'s chapter lines and the lookups they bring. */
  method AutopilotVolume(vols: seq<Volume>, v: nat, c: nat, i: nat, s0: string, prev0: Option<(nat, nat)>)
    returns (s: string, prev: Option<(nat, nat)>)
    requires v < |vols| && c <= |vols[v].chapters| && i <= v
    requires s0 == Render(LineOf(AutopilotStyle, vols), EntriesUpTo(vols, v, c, i))
    requires prev0 == None || prev0 == PrevChapter(vols, v, c)
    requires prev0 == None ==> NoneListed(vols, v, c, i)
    ensures s == Render(LineOf(AutopilotStyle, vols), EntriesUpTo(vols, v, c, i + 1))
    ensures prev == None || prev == PrevChapter(vols, v, c)
    ensures prev == None ==> NoneListed(vols, v, c, i + 1)
  {
    RenderNextVolume(LineOf(AutopilotStyle, vols), vols, v, c, i);
    assert Line(AutopilotStyle, vols, VolumeEntry(i)) == "";
    var limit := if i == v then c else |vols[i].chapters|;
    s, prev := AutopilotLines(LineOf(AutopilotStyle, vols), vols, v, c, i, limit, s0, prev0);
  }

  /**
   * The history loop of `_generate_all_contents`: the AI synopsis of every
   * earlier chapter, and, looked up again after each line, the previous
   * chapter. The lookup only runs when some chapter comes first, so it
   * finds nothing exactly when there is nothing to find.
   */
  method AutopilotContext(vols: seq<Volume>, v: nat, c: nat) returns (history: string, prev: Option<(nat, nat)>)
    requires v < |vols| && c <= |vols[v].chapters|
    ensures history == History(AutopilotStyle, vols, v, c)
    ensures prev == PrevChapter(vols, v, c)
  {
    history := "";
    prev := None;
    var i: nat := 0;
    while i <= v
      invariant i <= v + 1
      invariant history == Render(LineOf(AutopilotStyle, vols), EntriesUpTo(vols, v, c, i))
      invariant prev == None || prev == PrevChapter(vols, v, c)
      invariant prev == None ==> NoneListed(vols, v, c, i)
    {
      history, prev := AutopilotVolume(vols, v, c, i, history, prev);
      i := i + 1;
    }
    if prev == None {
      NothingListedNoPrevious(vols, v, c);
    }
  }

  /** The reading of the previous chapter's end in `_generate_all_contents`: "" when there is no previous chapter. */
  method ReadTail(p: NovelProject, prev: Option<(nat, nat)>) returns (previous: string)
    requires prev.Some? ==> ChapterAt(p.meta.volumes, prev.value.0, prev.value.1)
    ensures previous == match prev
      case None => ""
      case Some((i, j)) => PreviousTail(ChapterText(p.store, p.meta.volumes[i].name, p.meta.volumes[i].chapters[j].name))
  {
    previous := "";
    if prev.Some? {
      var (i, j) := prev.value;
      var vol := p.meta.volumes[i];
      var text := p.ReadChapterContent(vol.name, vol.chapters[j].name);
      if |text| > TAIL_LIMIT {
        text := ELISION + text[|text| - TAIL_LIMIT..];
      }
      previous := text;
    }
  }

  /** The model behind the autopilot: its two planners and its writer, as total functions of their requests. */
  datatype Planner = Planner(
    planVolumes: Meta -> Option<Plan>,
    planChapters: (Meta, nat) -> Option<Plan>,
    write: Brief -> seq<Delta>)

  /**
   * How a run ends: `finished_signal`, `error_signal`, or a silent return
   * when the flag is seen between two phases.
   */
  datatype RunEnd = Finished | Failed | Abandoned

  /** Every chapter text the autopilot counts as written is still there, unchanged. */
  predicate WrittenKept(a: Store, b: Store) {
    forall key :: key in a && Written(DocumentText(a[key])) ==> key in b && b[key] == a[key]
  }

  /** Every volume and chapter of `a` is still in `b`, in the same place and under the same name. */
  predicate Kept(a: seq<Volume>, b: seq<Volume>) {
    |a| <= |b| &&
    forall i :: 0 <= i < |a| ==>
      b[i].name == a[i].name && |a[i].chapters| <= |b[i].chapters| &&
      forall j :: 0 <= j < |a[i].chapters| ==> b[i].chapters[j].name == a[i].chapters[j].name
  }

  lemma KeptTrans(a: seq<Volume>, b: seq<Volume>, c: seq<Volume>)
    requires Kept(a, b) && Kept(b, c)
    ensures Kept(a, c)
  {
  }

  /** Each phase keeps the book's volumes and chapters. */
  lemma PhasesKeep(a: seq<Volume>, b: seq<Volume>)
    ensures Grown(a, b) ==> Kept(a, b)
    ensures SameOutline(a, b) ==> Kept(a, b)
  {
    if Grown(a, b) {
      forall i | 0 <= i < |a| ensures VolumeGrown(a[i], b[i]) {
      }
    }
  }

  class AutoPilotWorker {
    const window: MainWindow
    const flag: CancelFlag
    const planner: Planner

    constructor (window: MainWindow, flag: CancelFlag, planner: Planner)
      ensures this.window == window && this.flag == flag && this.planner == planner
    {
      this.window := window;
      this.flag := flag;
      this.planner := planner;
    }

    /** The first merge loop of `_plan_volumes`: longer synopses for existing volumes. */
    method UpdateExistingVolumes(ups: seq<Proposal>) returns (n: nat)
      modifies flag, window.project
      ensures n == Reached(old(flag.polls), flag.cancelAt, |ups|)
      ensures flag.polls == old(flag.polls) + Checks(old(flag.polls), flag.cancelAt, |ups|)
      ensures window.project.meta == old(window.project.meta).(volumes := UpdateVolumes(old(window.project.meta.volumes), ups[..n]))
      ensures window.project.store == old(window.project.store)
    {
      var i := 0;
      while i < |ups|
        invariant i <= |ups|
        invariant flag.polls == old(flag.polls) + i
        invariant i > 0 ==> old(flag.polls) + i <= flag.cancelAt
        invariant window.project.meta == old(window.project.meta).(volumes := UpdateVolumes(old(window.project.meta.volumes), ups[..i]))
        invariant window.project.store == old(window.project.store)
      {
        var stop := flag.Check();
        if stop {
          break;
        }
        var p := ups[i];
        var vols := window.project.meta.volumes;
        var found := FindByName(VolumeNames(vols), p.name);
        if found.Some? && |vols[found.value].synopsis| < |p.synopsis| {
          window.AutoUpdateVolume(found.value, p.synopsis);
        }
        PrefixSnoc(ups, i);
        i := i + 1;
      }
      n := i;
    }

    /** The second merge loop of `_plan_volumes`: new volumes whose names are not taken. */
    method AddNewVolumes(adds: seq<Proposal>) returns (n: nat)
      modifies flag, window.project
      ensures n == Reached(old(flag.polls), flag.cancelAt, |adds|)
      ensures flag.polls == old(flag.polls) + Checks(old(flag.polls), flag.cancelAt, |adds|)
      ensures window.project.meta == old(window.project.meta).(volumes := AddVolumes(old(window.project.meta.volumes), adds[..n]))
      ensures window.project.store == old(window.project.store)
    {
      var i := 0;
      while i < |adds|
        invariant i <= |adds|
        invariant flag.polls == old(flag.polls) + i
        invariant i > 0 ==> old(flag.polls) + i <= flag.cancelAt
        invariant window.project.meta == old(window.project.meta).(volumes := AddVolumes(old(window.project.meta.volumes), adds[..i]))
        invariant window.project.store == old(window.project.store)
      {
        var stop := flag.Check();
        if stop {
          break;
        }
        var p := adds[i];
        if p.name !in VolumeNames(window.project.meta.volumes) {
          window.AutoAddVolume(p.name, p.synopsis);
        }
        PrefixSnoc(adds, i);
        i := i + 1;
      }
      n := i;
    }

    /**
     * `_plan_volumes`: nothing to do when the volume plan is complete;
     * otherwise the planner is asked, and a reply that does not parse ends
     * the phase with an error before anything changes.
     */
    method PlanVolumes() returns (ok: bool)
      modifies flag, window.project
      ensures window.project.store == old(window.project.store)
      ensures var meta, k := old(window.project.meta), old(flag.polls);
        if VolumesPlanned(meta.volumes) then ok && window.project.meta == meta && flag.polls == k
        else match planner.planVolumes(meta)
          case None => !ok && window.project.meta == meta && flag.polls == k
          case Some(plan) =>
            ok && window.project.meta == meta.(volumes := PlannedVolumes(meta.volumes, plan, k, flag.cancelAt)) &&
            flag.polls == k + PlanChecks(plan, k, flag.cancelAt)
    {
      var meta := window.project.meta;
      var blank := HasShortVolume(meta.volumes);
      if |meta.volumes| >= VOLUME_QUOTA && !blank {
        return true;
      }
      var reply := planner.planVolumes(meta);
      if reply.None? {
        return false;
      }
      var plan := reply.value;
      var n1 := UpdateExistingVolumes(plan.updated);
      var n2 := AddNewVolumes(plan.added);
      ok := true;
    }
  
    /** One pass of that loop: the search for the chapter and the update when the proposal is longer. */
    method UpdateOneChapter(v: nat, p: Proposal)
      requires v < |window.project.meta.volumes|
      modifies window.project
      ensures window.project.meta == old(window.project.meta).(volumes :=
        old(window.project.meta.volumes)[v := UpdateChapter(old(window.project.meta.volumes[v]), p)])
      ensures window.project.store == old(window.project.store)
    {
      var vol := window.project.meta.volumes[v];
      var found := FindByName(ChapterNames(vol.chapters), p.name);
      if found.Some? && |vol.chapters[found.value].aiSynopsis| < |p.synopsis| {
        window.AutoUpdateChapter(v, found.value, p.synopsis);
      } else {
        assert UpdateChapter(vol, p) == vol;
        assert old(window.project.meta.volumes)[v := vol] == old(window.project.meta.volumes);
      }
    }

    /** The body of that loop past the flag check: proposal `i` merged after the ones before it. */
    method UpdateNextChapter(v: nat, ghost meta0: Meta, ups: seq<Proposal>, i: nat)
      requires v < |meta0.volumes| && i < |ups|
      requires window.project.meta == meta0.(volumes := meta0.volumes[v := UpdateChapters(meta0.volumes[v], ups[..i])])
      modifies window.project
      ensures window.project.meta == meta0.(volumes := meta0.volumes[v := UpdateChapters(meta0.volumes[v], ups[..i + 1])])
      ensures window.project.store == old(window.project.store)
    {
      UpdateOneChapter(v, ups[i]);
      PrefixSnoc(ups, i);
      assert UpdateChapters(meta0.volumes[v], ups[..i + 1]) == UpdateChapter(UpdateChapters(meta0.volumes[v], ups[..i]), ups[i]);
    }

    /** The first merge loop of `_plan_chapters` for volume `v`: longer AI synopses for existing chapters. */
    method UpdateExistingChapters(v: nat, ups: seq<Proposal>) returns (n: nat)
      requires v < |window.project.meta.volumes|
      modifies flag, window.project
      ensures n == Reached(old(flag.polls), flag.cancelAt, |ups|)
      ensures flag.polls == old(flag.polls) + Checks(old(flag.polls), flag.cancelAt, |ups|)
      ensures window.project.meta == old(window.project.meta).(volumes :=
        old(window.project.meta.volumes)[v := UpdateChapters(old(window.project.meta.volumes[v]), ups[..n])])
      ensures window.project.store == old(window.project.store)
    {
      var meta0 := window.project.meta;
      var i := 0;
      while i < |ups|
        invariant i <= |ups|
        invariant flag.polls == old(flag.polls) + i
        invariant i > 0 ==> old(flag.polls) + i <= flag.cancelAt
        invariant window.project.meta == meta0.(volumes := meta0.volumes[v := UpdateChapters(meta0.volumes[v], ups[..i])])
        invariant window.project.store == old(window.project.store)
      {
        var stop := flag.Check();
        if stop {
          break;
        }
        UpdateNextChapter(v, meta0, ups, i);
        i := i + 1;
      }
      n := i;
    }

    /** The second merge loop of `_plan_chapters` for volume `v`: new chapters whose names are not taken. */
    method AddNewChapters(v: nat, adds: seq<Proposal>) returns (n: nat)
      requires v < |window.project.meta.volumes|
      modifies flag, window.project
      ensures n == Reached(old(flag.polls), flag.cancelAt, |adds|)
      ensures flag.polls == old(flag.polls) + Checks(old(flag.polls), flag.cancelAt, |adds|)
      ensures window.project.meta == old(window.project.meta).(volumes :=
        old(window.project.meta.volumes)[v := AddChapters(old(window.project.meta.volumes[v]), adds[..n])])
      ensures Extends(old(window.project.store), window.project.store)
    {
      var meta0 := window.project.meta;
      var i := 0;
      while i < |adds|
        invariant i <= |adds|
        invariant flag.polls == old(flag.polls) + i
        invariant i > 0 ==> old(flag.polls) + i <= flag.cancelAt
        invariant window.project.meta == meta0.(volumes := meta0.volumes[v := AddChapters(meta0.volumes[v], adds[..i])])
        invariant Extends(old(window.project.store), window.project.store)
      {
        var stop := flag.Check();
        if stop {
          break;
        }
        var p := adds[i];
        if p.name !in ChapterNames(window.project.meta.volumes[v].chapters) {
          window.AutoAddChapter(v, p.name, p.synopsis);
        }
        PrefixSnoc(adds, i);
        i := i + 1;
      }
      n := i;
    }

    /**
     * One pass of `_plan_chapters`: nothing to do for a volume whose plan is
     * complete; otherwise the planner is asked, with the whole book as it is
     * now, and a reply that does not parse ends the phase with an error.
     */
    method PlanVolumeChapters(v: nat) returns (ok: bool)
      requires v < |window.project.meta.volumes|
      modifies flag, window.project
      ensures var meta, k := old(window.project.meta), old(flag.polls);
        if ChaptersPlanned(meta.volumes[v]) || planner.planChapters(meta, v).None? then
          ok == ChaptersPlanned(meta.volumes[v]) && window.project.meta == meta &&
          window.project.store == old(window.project.store) && flag.polls == k
        else
          var plan := planner.planChapters(meta, v).value;
          ok && window.project.meta == meta.(volumes := meta.volumes[v := PlannedChapters(meta.volumes[v], plan, k, flag.cancelAt)]) &&
          Extends(old(window.project.store), window.project.store) &&
          flag.polls == k + PlanChecks(plan, k, flag.cancelAt)
    {
      var meta := window.project.meta;
      var blank := HasBlankChapter(meta.volumes[v]);
      if |meta.volumes[v].chapters| >= CHAPTER_QUOTA && !blank {
        return true;
      }
      var reply := planner.planChapters(meta, v);
      if reply.None? {
        return false;
      }
      MergeChapterPlan(v, reply.value);
      ok := true;
    }

    /** Both merge loops of `_plan_chapters` for volume `v`, one after the other. */
    method MergeChapterPlan(v: nat, plan: Plan)
      requires v < |window.project.meta.volumes|
      modifies flag, window.project
      ensures var meta, k := old(window.project.meta), old(flag.polls);
        window.project.meta == meta.(volumes := meta.volumes[v := PlannedChapters(meta.volumes[v], plan, k, flag.cancelAt)]) &&
        flag.polls == k + PlanChecks(plan, k, flag.cancelAt)
      ensures Extends(old(window.project.store), window.project.store)
    {
      var n1 := UpdateExistingChapters(v, plan.updated);
      var n2 := AddNewChapters(v, plan.added);
    }

    /**
     * `_plan_chapters`: every volume in turn, the flag read before each.
     * Whatever the planner says, volumes keep their names and synopses,
     * chapters are only appended, an author's synopsis is never replaced,
     * no chapter name is repeated that was not already, and no chapter
     * text is touched.
     */
    method PlanChapters() returns (ok: bool)
      modifies flag, window.project
      ensures Grown(old(window.project.meta.volumes), window.project.meta.volumes)
      ensures Extends(old(window.project.store), window.project.store)
      ensures window.project.meta.globalSynopsis == old(window.project.meta.globalSynopsis)
    {
      var v := 0;
      while v < |window.project.meta.volumes|
        invariant v <= |window.project.meta.volumes|
        invariant Grown(old(window.project.meta.volumes), window.project.meta.volumes)
        invariant Extends(old(window.project.store), window.project.store)
        invariant window.project.meta.globalSynopsis == old(window.project.meta.globalSynopsis)
      {
        var stop := flag.Check();
        if stop {
          break;
        }
        var meta := window.project.meta;
        var k := flag.polls;
        ok := PlanVolumeChapters(v);
        if !ok {
          return;
        }
        if ChaptersPlanned(meta.volumes[v]) {
          assert Grown(meta.volumes, window.project.meta.volumes);
        } else {
          var plan := planner.planChapters(meta, v).value;
          PlannedChaptersKeepVolume(meta.volumes[v], plan, k, flag.cancelAt);
          GrownAt(meta.volumes, v, PlannedChapters(meta.volumes[v], plan, k, flag.cancelAt));
        }
        GrownTrans(old(window.project.meta.volumes), meta.volumes, window.project.meta.volumes);
        v := v + 1;
      }
      ok := true;
    }
  
    /**
     * The prompt assembly of `_generate_all_contents`: the history loop
     * with its lookup of the previous chapter, the last 1500 characters of
     * that chapter's text, and the target's plot.
     */
    method Compose(v: nat, c: nat) returns (brief: Brief)
      requires ChapterAt(window.project.meta.volumes, v, c)
      ensures brief == BriefFor(window.project.meta, window.project.store, v, c)
    {
      var meta := window.project.meta;
      var vols := meta.volumes;
      var history, prev := AutopilotContext(vols, v, c);
      var previous := ReadTail(window.project, prev);
      var vol := vols[v];
      brief := Brief(meta.globalSynopsis, meta.characters, history, Strip(previous), vol.name, vol.chapters[c].name, Directive(vol.chapters[c]));
    }

    /** The chunk loop of `_generate_all_contents`: chunks forwarded to the window, content collected. */
    method StreamChapter(deltas: seq<Delta>) returns (buffer: string, n: nat)
      modifies flag, window
      ensures n == Reached(old(flag.polls), flag.cancelAt, |deltas|)
      ensures flag.polls == old(flag.polls) + Checks(old(flag.polls), flag.cancelAt, |deltas|)
      ensures buffer == Received(deltas[..n])
      ensures window.Snapshot() == ForwardAll(old(window.Snapshot()), deltas[..n])
      ensures window.isAutoPiloting == old(window.isAutoPiloting)
    {
      buffer := "";
      var i := 0;
      while i < |deltas|
        invariant i <= |deltas|
        invariant flag.polls == old(flag.polls) + i
        invariant i > 0 ==> old(flag.polls) + i <= flag.cancelAt
        invariant buffer == Received(deltas[..i])
        invariant window.Snapshot() == ForwardAll(old(window.Snapshot()), deltas[..i])
      {
        var stop := flag.Check();
        if stop {
          break;
        }
        PrefixSnoc(deltas, i);
        Deliver(window, deltas[i]);
        if deltas[i].content != "" {
          buffer := buffer + deltas[i].content;
        }
        i := i + 1;
      }
      n := i;
      ForwardAllEffect(old(window.Snapshot()), deltas[..n]);
    }

    /**
     * One chapter of `_generate_all_contents`: `start_chapter_signal`, the
     * brief, the stream, and `save_content_signal` with the split reply.
     * A stop seen during the stream or right after it saves nothing, so a
     * chapter is only ever saved from the complete reply.
     */
    method GenerateChapter(v: nat, c: nat) returns (stopped: bool)
      requires ChapterAt(window.project.meta.volumes, v, c)
      modifies flag, window, window.project
      ensures var deltas := planner.write(BriefFor(old(window.project.meta), old(window.project.store), v, c));
        var k2 := old(flag.polls) + Checks(old(flag.polls), flag.cancelAt, |deltas|);
        flag.polls == k2 + 1 && (stopped <==> k2 >= flag.cancelAt)
      ensures stopped ==> window.project.meta == old(window.project.meta) && window.project.store == old(window.project.store)
      ensures !stopped ==>
        var meta := old(window.project.meta);
        var vol := meta.volumes[v];
        var reply := SplitReply(Received(planner.write(BriefFor(meta, old(window.project.store), v, c))));
        window.project.store == old(window.project.store)[(vol.name, vol.chapters[c].name) := Paragraphs(reply.content)] &&
        window.project.meta == if reply.summary == "" then meta
          else WithChapterAt(meta, v, c, vol.chapters[c].(aiSynopsis := reply.summary))
      ensures SameOutline(old(window.project.meta.volumes), window.project.meta.volumes)
      ensures window.isAutoPiloting == old(window.isAutoPiloting)
    {
      window.AutoStartChapter(v, c);
      var brief := Compose(v, c);
      var deltas := planner.write(brief);
      var buffer, n := StreamChapter(deltas);
      if n == |deltas| {
        assert deltas[..n] == deltas;
      }
      stopped := SaveUnlessStopped(v, c, buffer);
    }

    /** The end of one chapter: the flag is read once more, and the split reply is saved unless it is set. */
    method SaveUnlessStopped(v: nat, c: nat, buffer: string) returns (stopped: bool)
      requires ChapterAt(window.project.meta.volumes, v, c)
      modifies flag, window, window.project
      ensures flag.polls == old(flag.polls) + 1 && (stopped <==> old(flag.polls) >= flag.cancelAt)
      ensures stopped ==> window.project.meta == old(window.project.meta) && window.project.store == old(window.project.store)
      ensures !stopped ==>
        var meta := old(window.project.meta);
        var vol := meta.volumes[v];
        var reply := SplitReply(buffer);
        window.project.store == old(window.project.store)[(vol.name, vol.chapters[c].name) := Paragraphs(reply.content)] &&
        window.project.meta == if reply.summary == "" then meta
          else WithChapterAt(meta, v, c, vol.chapters[c].(aiSynopsis := reply.summary))
      ensures SameOutline(old(window.project.meta.volumes), window.project.meta.volumes)
      ensures window.isAutoPiloting == old(window.isAutoPiloting)
    {
      stopped := flag.Check();
      if stopped {
        return;
      }
      var reply := SplitReply(buffer);
      window.AutoSaveContent(v, c, reply.content, reply.summary);
    }

    /**
     * `_generate_all_contents`: every chapter of every volume in order, the
     * flag read before each; a chapter whose text counts as written is
     * skipped. The outline never changes and no written chapter is touched.
     */
    method GenerateAllContents()
      modifies flag, window, window.project
      ensures SameOutline(old(window.project.meta.volumes), window.project.meta.volumes)
      ensures WrittenKept(old(window.project.store), window.project.store)
      ensures window.isAutoPiloting == old(window.isAutoPiloting)
    {
      var v := 0;
      while v < |window.project.meta.volumes|
        invariant SameOutline(old(window.project.meta.volumes), window.project.meta.volumes)
        invariant WrittenKept(old(window.project.store), window.project.store)
        invariant window.isAutoPiloting == old(window.isAutoPiloting)
      {
        var c := 0;
        while c < |window.project.meta.volumes[v].chapters|
          invariant v < |window.project.meta.volumes|
          invariant SameOutline(old(window.project.meta.volumes), window.project.meta.volumes)
          invariant WrittenKept(old(window.project.store), window.project.store)
          invariant window.isAutoPiloting == old(window.isAutoPiloting)
        {
          var stop := flag.Check();
          if stop {
            return;
          }
          var stopped := WriteIfUnwritten(v, c);
          if stopped {
            return;
          }
          c := c + 1;
        }
        v := v + 1;
      }
    }

    /** The body of that loop: the chapter is generated unless its text counts as written. */
    method WriteIfUnwritten(v: nat, c: nat) returns (stopped: bool)
      requires ChapterAt(window.project.meta.volumes, v, c)
      modifies flag, window, window.project
      ensures SameOutline(old(window.project.meta.volumes), window.project.meta.volumes)
      ensures WrittenKept(old(window.project.store), window.project.store)
      ensures window.isAutoPiloting == old(window.isAutoPiloting)
    {
      var vol := window.project.meta.volumes[v];
      var text := window.project.ReadChapterContent(vol.name, vol.chapters[c].name);
      if Written(text) {
        return false;
      }
      stopped := GenerateChapter(v, c);
    }

    /**
     * `run`: the three phases with a check of the flag between them. A
     * reply that does not parse goes to `handle_error`, which ends the
     * autopilot; a stop between phases returns without any signal, so the
     * window stays in autopilot mode; otherwise `finished_signal` ends it,
     * stopped during the writing or not. No chapter text that counts as
     * written is ever changed.
     */
    method Run() returns (end: RunEnd)
      requires window.isAutoPiloting
      modifies flag, window, window.project
      ensures end == Abandoned <==> window.isAutoPiloting
      ensures WrittenKept(old(window.project.store), window.project.store)
      ensures Kept(old(window.project.meta.volumes), window.project.meta.volumes)
    {
      var vols0 := window.project.meta.volumes;
      var ok := VolumePhase();
      if !ok {
        var vols1 := window.project.meta.volumes;
        var handled := window.HandleError();
        PhasesKeep(vols1, window.project.meta.volumes);
        KeptTrans(vols0, vols1, window.project.meta.volumes);
        return Failed;
      }
      var stop := flag.Check();
      if stop {
        return Abandoned;
      }
      var vols1 := window.project.meta.volumes;
      ok := PlanChapters();
      PhasesKeep(vols1, window.project.meta.volumes);
      KeptTrans(vols0, vols1, window.project.meta.volumes);
      var vols2 := window.project.meta.volumes;
      if !ok {
        var handled := window.HandleError();
        PhasesKeep(vols2, window.project.meta.volumes);
        KeptTrans(vols0, vols2, window.project.meta.volumes);
        return Failed;
      }
      stop := flag.Check();
      if stop {
        return Abandoned;
      }
      GenerateAllContents();
      PhasesKeep(vols2, window.project.meta.volumes);
      KeptTrans(vols0, vols2, window.project.meta.volumes);
      window.AutoPilotFinished();
      return Finished;
    }

    /** Phase 1 as `run` sees it: the book keeps its volumes and chapters and no chapter text changes. */
    method VolumePhase() returns (ok: bool)
      modifies flag, window.project
      ensures Kept(old(window.project.meta.volumes), window.project.meta.volumes)
      ensures window.project.store == old(window.project.store)
    {
      var meta, k := window.project.meta, flag.polls;
      ok := PlanVolumes();
      if !VolumesPlanned(meta.volumes) && planner.planVolumes(meta).Some? {
        PlannedVolumesKeepBook(meta.volumes, planner.planVolumes(meta).value, k, flag.cancelAt);
      }
    }
  }
}
