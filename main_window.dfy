/**
 * The main window's handlers: the prompt it builds for one chapter, the
 * live stream of a generation and its commit, the slots through which the
 * autopilot and the corrector change the book, and the guards of the
 * tree's rename and delete actions.
 */
module Window {
  import opened Text
  import opened DataManager
  import opened Context
  import opened Delimiter
  import opened UiComponents

  /** A selection or generation index: -1 when there is none. */
  type Index = i: int | -1 <= i

  /** `(v, c)` names a chapter of the book. */
  predicate ChapterAt(vols: seq<Volume>, v: int, c: int) {
    0 <= v < |vols| && 0 <= c < |vols[v].chapters|
  }

  /** The book with chapter `(v, c)` replaced by `ch` and everything else as it was. */
  function WithChapterAt(meta: Meta, v: nat, c: nat, ch: Chapter): (r: Meta)
    requires ChapterAt(meta.volumes, v, c)
    ensures r.title == meta.title && r.globalSynopsis == meta.globalSynopsis && r.characters == meta.characters
    ensures |r.volumes| == |meta.volumes| && ChapterAt(r.volumes, v, c) && r.volumes[v].chapters[c] == ch
    ensures forall i :: 0 <= i < |r.volumes| && i != v ==> r.volumes[i] == meta.volumes[i]
    ensures r.volumes[v].name == meta.volumes[v].name && r.volumes[v].synopsis == meta.volumes[v].synopsis
    ensures |r.volumes[v].chapters| == |meta.volumes[v].chapters|
    ensures forall j :: 0 <= j < |r.volumes[v].chapters| && j != c ==> r.volumes[v].chapters[j] == meta.volumes[v].chapters[j]
  {
    var vol := meta.volumes[v];
    meta.(volumes := meta.volumes[v := vol.(chapters := vol.chapters[c := ch])])
  }

  /** Putting a chapter back in its own place leaves the book as it was. */
  lemma WithChapterAtSame(meta: Meta, v: nat, c: nat)
    requires ChapterAt(meta.volumes, v, c)
    ensures WithChapterAt(meta, v, c, meta.volumes[v].chapters[c]) == meta
  {
    var vol := meta.volumes[v];
    assert vol.chapters[c := vol.chapters[c]] == vol.chapters;
    assert meta.volumes[v := vol] == meta.volumes;
  }

  /** Both books have the same volumes and chapters, by name and position; only synopses may differ. */
  predicate SameOutline(a: seq<Volume>, b: seq<Volume>) {
    |a| == |b| &&
    (forall i :: 0 <= i < |a| ==> a[i].name == b[i].name && |a[i].chapters| == |b[i].chapters|) &&
    (forall i, j :: 0 <= i < |a| && 0 <= j < |a[i].chapters| ==> a[i].chapters[j].name == b[i].chapters[j].name)
  }

  lemma SameOutlineTrans(a: seq<Volume>, b: seq<Volume>, c: seq<Volume>)
    requires SameOutline(a, b) && SameOutline(b, c)
    ensures SameOutline(a, c)
  {
  }

  /** Replacing a chapter by one of the same name keeps the outline. */
  lemma WithChapterAtOutline(meta: Meta, v: nat, c: nat, ch: Chapter)
    requires ChapterAt(meta.volumes, v, c) && ch.name == meta.volumes[v].chapters[c].name
    ensures SameOutline(meta.volumes, WithChapterAt(meta, v, c, ch).volumes)
  {
  }

  /** The book with the synopsis of volume `v` replaced and everything else as it was. */
  function WithVolumeSynopsis(meta: Meta, v: nat, synopsis: string): (r: Meta)
    requires v < |meta.volumes|
    ensures r.title == meta.title && r.globalSynopsis == meta.globalSynopsis && r.characters == meta.characters
    ensures |r.volumes| == |meta.volumes|
    ensures r.volumes[v].synopsis == synopsis
    ensures r.volumes[v].name == meta.volumes[v].name && r.volumes[v].chapters == meta.volumes[v].chapters
    ensures forall i :: 0 <= i < |r.volumes| && i != v ==> r.volumes[i] == meta.volumes[i]
  {
    meta.(volumes := meta.volumes[v := meta.volumes[v].(synopsis := synopsis)])
  }

  /**
   * What a generation request tells the model besides the fixed wording:
   * the global outline, the history of earlier chapters, the end of the
   * previous chapter ("" when that block is left out) and the target.
   */
  datatype Prompt = Prompt(
    globalSynopsis: string,
    history: string,
    previous: string,
    volumeName: string,
    volumeSynopsis: string,
    chapterName: string,
    chapterSynopsis: string)

  /** The quoted end of the chapter the target continues, or "" when no chapter comes before it. */
  function PreviousText(vols: seq<Volume>, store: Store, v: nat, c: nat): string
    requires v < |vols| && c <= |vols[v].chapters|
  {
    match PrevChapter(vols, v, c)
    case None => ""
    case Some((i, j)) => PreviousTail(ChapterText(store, vols[i].name, vols[i].chapters[j].name))
  }

  /** The search for the previous chapter and the reading of its end, as `build_prompts` does them. */
  method ReadPrevious(p: NovelProject, v: nat, c: nat) returns (previous: string)
    requires v < |p.meta.volumes| && c <= |p.meta.volumes[v].chapters|
    ensures previous == PreviousText(p.meta.volumes, p.store, v, c)
  {
    var vols := p.meta.volumes;
    previous := "";
    var prev := FindPrevChapter(vols, v, c);
    if prev.Some? {
      var (i, j) := prev.value;
      var text := p.ReadChapterContent(vols[i].name, vols[i].chapters[j].name);
      if |text| > TAIL_LIMIT {
        text := ELISION + text[|text| - TAIL_LIMIT..];
      }
      previous := text;
    }
  }

  /** The history loop of `build_prompts` with its fallbacks. */
  method AssembleWindowHistory(vols: seq<Volume>, v: nat, c: nat) returns (history: string)
    requires v < |vols| && c <= |vols[v].chapters|
    ensures history == WindowHistory(vols, v, c)
  {
    var line := LineOf(WindowStyle, vols);
    history := AssembleHistory(line, vols, v, c);
    if |history| > HISTORY_LIMIT {
      history := AssembleVolumeLines(line, v + 1, DEGRADED_NOTICE);
    }
    if IsBlank(history) {
      history := OPENING;
    }
  }

  /** The prompt for chapter `(v, c)` of a book whose chapter files are `store`. */
  function PromptFor(meta: Meta, store: Store, v: nat, c: nat): (r: Prompt)
    requires ChapterAt(meta.volumes, v, c)
    ensures r.history == Strip(WindowHistory(meta.volumes, v, c))
    ensures r.previous == Strip(PreviousText(meta.volumes, store, v, c))
    ensures r.chapterName == meta.volumes[v].chapters[c].name
    ensures r.chapterSynopsis == meta.volumes[v].chapters[c].synopsis
  {
    var vols := meta.volumes;
    Prompt(meta.globalSynopsis, Strip(WindowHistory(vols, v, c)), Strip(PreviousText(vols, store, v, c)),
      vols[v].name, vols[v].synopsis, vols[v].chapters[c].name, vols[v].chapters[c].synopsis)
  }

  /**
   * The first chapter of a book whose earlier volumes are all empty is
   * written without a previous-chapter block.
   */
  lemma NoEarlierChapterNoPrevious(vols: seq<Volume>, store: Store, v: nat, c: nat)
    requires v < |vols| && c <= |vols[v].chapters|
    requires forall i: nat, j: nat :: !IsEarlier(vols, i, j, v, c)
    ensures PreviousText(vols, store, v, c) == ""
  {
    PrevChapterIsLatestEarlier(vols, v, c);
  }

  /**
   * Any other chapter is written after the end of the latest chapter
   * before it, quoted as at most 1500 characters after an elision mark.
   */
  lemma PreviousIsLatestEarlier(vols: seq<Volume>, store: Store, v: nat, c: nat)
    requires v < |vols| && c <= |vols[v].chapters|
    requires exists i: nat, j: nat :: IsEarlier(vols, i, j, v, c)
    ensures exists i: nat, j: nat ::
      && IsEarlier(vols, i, j, v, c)
      && (forall i': nat, j': nat :: IsEarlier(vols, i', j', v, c) ==> NoLater(i', j', i, j))
      && PreviousText(vols, store, v, c) == PreviousTail(ChapterText(store, vols[i].name, vols[i].chapters[j].name))
  {
    PrevChapterIsLatestEarlier(vols, v, c);
    var (i, j) := PrevChapter(vols, v, c).value;
    assert IsEarlier(vols, i, j, v, c);
  }

  /** The characters of the global settings page worth keeping: those with some field filled. */
  predicate Filled(d: Character) {
    d.name != "" || d.gender != "" || d.personality != "" || d.experience != ""
  }

  /** The cards' data, in order, without the entirely empty ones. */
  function KeepFilled(ds: seq<Character>): (r: seq<Character>)
    ensures |r| <= |ds|
  {
    if |ds| == 0 then []
    else if Filled(ds[|ds| - 1]) then KeepFilled(ds[..|ds| - 1]) + [ds[|ds| - 1]]
    else KeepFilled(ds[..|ds| - 1])
  }

  /**
   * A card is kept exactly when it is filled, and no card is kept more
   * often than it occurs.
   */
  lemma {:induction false} KeepFilledKeeps(ds: seq<Character>)
    ensures forall d :: d in KeepFilled(ds) <==> d in ds && Filled(d)
    ensures multiset(KeepFilled(ds)) <= multiset(ds)
  {
    if |ds| > 0 {
      var init, last := ds[..|ds| - 1], ds[|ds| - 1];
      KeepFilledKeeps(init);
      assert ds == init + [last];
      KeepFilledSnoc(init, last);
    }
  }

  /**
   * Keeping the filled cards of two lists one after the other is keeping
   * those of each in turn: the kept cards stay in their order, each as
   * often as it occurs.
   */
  lemma {:induction false} KeepFilledAppend(a: seq<Character>, b: seq<Character>)
    ensures KeepFilled(a + b) == KeepFilled(a) + KeepFilled(b)
  {
    if |b| == 0 {
      assert a + b == a;
    } else {
      var init := b[..|b| - 1];
      var last := b[|b| - 1];
      assert a + b == (a + init) + [last];
      assert b == init + [last];
      KeepFilledAppend(a, init);
      KeepFilledSnoc(a + init, last);
      KeepFilledSnoc(init, last);
    }
  }

  /** A single card is kept exactly when it is filled. */
  lemma KeepFilledOne(d: Character)
    ensures KeepFilled([d]) == if Filled(d) then [d] else []
  {
    assert [d][..0] == [];
  }

  /** A card list whose every card is filled is kept whole. */
  lemma {:induction false} KeepFilledAll(ds: seq<Character>)
    requires forall k :: 0 <= k < |ds| ==> Filled(ds[k])
    ensures KeepFilled(ds) == ds
  {
    if |ds| > 0 {
      KeepFilledAll(ds[..|ds| - 1]);
      assert ds[..|ds| - 1] + [ds[|ds| - 1]] == ds;
    }
  }

  /** The data the cards hold, each read back trimmed. */
  function CardData(cards: seq<CharacterWidget>): (r: seq<Character>)
    reads set w | w in cards
    ensures |r| == |cards|
  {
    if |cards| == 0 then [] else
    var init := cards[..|cards| - 1];
    assert forall w :: w in init ==> w in cards;
    CardData(init) + [cards[|cards| - 1].GetData()]
  }

  lemma CardDataSnoc(cards: seq<CharacterWidget>, k: nat)
    requires k < |cards|
    ensures CardData(cards[..k + 1]) == CardData(cards[..k]) + [cards[k].GetData()]
  {
    assert cards[..k + 1][..k] == cards[..k];
  }

  lemma KeepFilledSnoc(ds: seq<Character>, d: Character)
    ensures KeepFilled(ds + [d]) == if Filled(d) then KeepFilled(ds) + [d] else KeepFilled(ds)
  {
    assert (ds + [d])[..|ds|] == ds;
  }

  /** One card of that loop: its data joins the list when some field is filled. */
  method KeepCard(ghost ds: seq<Character>, d: Character, chars: seq<Character>) returns (r: seq<Character>)
    requires chars == KeepFilled(ds)
    ensures r == KeepFilled(ds + [d])
  {
    KeepFilledSnoc(ds, d);
    r := chars;
    if Filled(d) {
      r := chars + [d];
    }
  }

  /** The loop of `save_global_meta` over the cards: each card's trimmed data, kept when some field is filled. */
  method CollectCharacters(cards: seq<CharacterWidget>) returns (chars: seq<Character>)
    ensures chars == KeepFilled(CardData(cards))
  {
    chars := [];
    var k := 0;
    while k < |cards|
      invariant k <= |cards|
      invariant chars == KeepFilled(CardData(cards[..k]))
    {
      var d := cards[k].GetData();
      CardDataSnoc(cards, k);
      chars := KeepCard(CardData(cards[..k]), d, chars);
      k := k + 1;
    }
    assert cards[..|cards|] == cards;
  }

  /** An item of the book tree. */
  datatype Node = RootNode | VolumeNode(v: nat) | ChapterNode(v: nat, c: nat)

  /** The item is one of the tree as drawn from the book. */
  predicate InTree(vols: seq<Volume>, node: Node) {
    match node
    case RootNode => true
    case VolumeNode(v) => v < |vols|
    case ChapterNode(v, c) => ChapterAt(vols, v, c)
  }

  /** The item's label, which is the name of its volume or chapter. */
  function Label(vols: seq<Volume>, node: Node): string
    requires InTree(vols, node) && !node.RootNode?
  {
    match node
    case VolumeNode(v) => vols[v].name
    case ChapterNode(v, c) => vols[v].chapters[c].name
  }

  /** The delete refusal: only the generated chapter itself, or its volume, while a generation runs. */
  predicate DeleteRefused(isGenerating: bool, genV: int, genC: int, node: Node) {
    isGenerating &&
    match node
    case RootNode => false
    case VolumeNode(v) => v == genV
    case ChapterNode(v, c) => v == genV && c == genC
  }

  /** The book after deleting the item. */
  function AfterDelete(vols: seq<Volume>, node: Node): seq<Volume>
    requires InTree(vols, node) && !node.RootNode?
  {
    match node
    case VolumeNode(v) => RemoveAt(vols, v)
    case ChapterNode(v, c) => vols[v := vols[v].(chapters := RemoveAt(vols[v].chapters, c))]
  }

  /**
   * Deleting an item the guard lets through can move the chapter the
   * generation writes to: with chapters A, B, C and B being generated,
   * deleting A leaves the indices pointing at C.
   */
  lemma DeleteShiftsGenerationTarget()
    ensures var vols := [Volume("v", "", [Chapter("A", "", ""), Chapter("B", "", ""), Chapter("C", "", "")])];
      !DeleteRefused(true, 0, 1, ChapterNode(0, 0)) &&
      vols[0].chapters[1].name == "B" && AfterDelete(vols, ChapterNode(0, 0))[0].chapters[1].name == "C"
  {
    var vols := [Volume("v", "", [Chapter("A", "", ""), Chapter("B", "", ""), Chapter("C", "", "")])];
    assert AfterDelete(vols, ChapterNode(0, 0))[0].chapters == [Chapter("B", "", ""), Chapter("C", "", "")];
  }

  /**
   * The generation indices after deleting an item that is neither the
   * generated chapter nor its volume: they follow that chapter when an
   * earlier volume or an earlier chapter of its volume disappears.
   */
  function Retarget(genV: Index, genC: Index, node: Node): (r: (Index, Index))
    ensures genV == -1 || genC == -1 ==> r == (genV, genC)
  {
    if genV == -1 || genC == -1 then (genV, genC)
    else match node
      case RootNode => (genV, genC)
      case VolumeNode(v) => if v < genV then (genV - 1, genC) else (genV, genC)
      case ChapterNode(v, c) => if v == genV && c < genC then (genV, genC - 1) else (genV, genC)
  }

  /** After any delete of another item, the retargeted indices name the same chapter as before. */
  lemma RetargetFollowsChapter(vols: seq<Volume>, genV: Index, genC: Index, node: Node)
    requires InTree(vols, node) && !node.RootNode? && ChapterAt(vols, genV, genC)
    requires !DeleteRefused(true, genV, genC, node)
    ensures var (v', c') := Retarget(genV, genC, node);
      var after := AfterDelete(vols, node);
      ChapterAt(after, v', c') && after[v'].chapters[c'] == vols[genV].chapters[genC]
  {
  }

  /** The rename guard as written: any non-empty input whose stripped form differs from the old name. */
  predicate RenameAcceptedAsWritten(accepted: bool, input: string, oldName: string) {
    accepted && input != "" && Strip(input) != oldName
  }

  /** Input of white space only passes the guard as written and names the item "". */
  lemma BlankRenameAsWritten()
    ensures RenameAcceptedAsWritten(true, " ", "第一章") && Strip(" ") == ""
  {
    assert IsSpace(" "[0]);
  }

  /** The rename guard: the stripped input is non-empty and differs from the old name. */
  predicate RenameAccepted(accepted: bool, input: string, oldName: string) {
    accepted && !IsBlank(input) && Strip(input) != oldName
  }

  /**
   * The guard gives every renamed item a name that is not blank and is new,
   * and it differs from the guard as written only on blank input.
   */
  lemma RenameAcceptedGivesName(accepted: bool, input: string, oldName: string)
    ensures RenameAccepted(accepted, input, oldName) ==> Strip(input) != "" && !IsBlank(Strip(input)) && Strip(input) != oldName
    ensures RenameAccepted(accepted, input, oldName) <==> RenameAcceptedAsWritten(accepted, input, oldName) && !IsBlank(input)
  {
    StripIdempotent(input);
  }

  /** No two volumes share a name, and no two chapters of one volume do. */
  predicate DistinctNames(vols: seq<Volume>) {
    (forall a, b :: 0 <= a < |vols| && 0 <= b < |vols| && a != b ==> vols[a].name != vols[b].name) &&
    (forall i, a, b :: 0 <= i < |vols| && 0 <= a < |vols[i].chapters| && 0 <= b < |vols[i].chapters| && a != b ==>
      vols[i].chapters[a].name != vols[i].chapters[b].name)
  }

  /** The documents after deleting the item: its volume's whole directory, or its one document. */
  function StoreAfterDelete(vols: seq<Volume>, store: Store, node: Node): Store
    requires InTree(vols, node) && !node.RootNode?
  {
    match node
    case VolumeNode(v) => DropVolumeContent(store, vols[v].name)
    case ChapterNode(v, c) => store - {(vols[v].name, vols[v].chapters[c].name)}
  }

  /**
   * With distinct names a deletion takes exactly the deleted item's
   * documents: a deleted volume leaves no document behind, and every
   * chapter still in the book reads as it did before.
   */
  lemma DeleteKeepsOtherChapters(vols: seq<Volume>, store: Store, node: Node, i: nat, j: nat)
    requires InTree(vols, node) && !node.RootNode? && DistinctNames(vols)
    requires ChapterAt(AfterDelete(vols, node), i, j)
    ensures node.VolumeNode? ==> forall k :: k in StoreAfterDelete(vols, store, node) ==> k.0 != vols[node.v].name
    ensures node.ChapterNode? ==> (vols[node.v].name, Label(vols, node)) !in StoreAfterDelete(vols, store, node)
    ensures var after := AfterDelete(vols, node);
      ChapterText(StoreAfterDelete(vols, store, node), after[i].name, after[i].chapters[j].name) ==
      ChapterText(store, after[i].name, after[i].chapters[j].name)
  {
    var after := AfterDelete(vols, node);
    match node {
      case VolumeNode(v) =>
        var i' := if i < v then i else i + 1;
        assert after[i] == vols[i'];
        assert after[i].name != vols[v].name;
      case ChapterNode(v, c) =>
        if i == v {
          var j' := if j < c then j else j + 1;
          assert after[i].chapters[j] == vols[v].chapters[j'];
          assert after[i].chapters[j].name != vols[v].chapters[c].name;
        } else {
          assert after[i] == vols[i];
        }
    }
  }

  /** The book after renaming the item to `name`. */
  function AfterRename(vols: seq<Volume>, node: Node, name: string): (r: seq<Volume>)
    requires InTree(vols, node) && !node.RootNode?
    ensures |r| == |vols| && InTree(r, node) && Label(r, node) == name
    ensures forall i :: 0 <= i < |r| && i != node.v ==> r[i] == vols[i]
    ensures r[node.v].synopsis == vols[node.v].synopsis
    ensures node.VolumeNode? ==> r[node.v].chapters == vols[node.v].chapters
    ensures node.ChapterNode? ==>
      && r[node.v].name == vols[node.v].name
      && |r[node.v].chapters| == |vols[node.v].chapters|
      && (forall j :: 0 <= j < |r[node.v].chapters| && j != node.c ==> r[node.v].chapters[j] == vols[node.v].chapters[j])
      && r[node.v].chapters[node.c].synopsis == vols[node.v].chapters[node.c].synopsis
      && r[node.v].chapters[node.c].aiSynopsis == vols[node.v].chapters[node.c].aiSynopsis
  {
    match node
    case VolumeNode(v) => vols[v := vols[v].(name := name)]
    case ChapterNode(v, c) => vols[v := vols[v].(chapters := vols[v].chapters[c := vols[v].chapters[c].(name := name)])]
  }

  /**
   * The move behind a rename goes ahead: the name is new, and a volume's
   * directory moves only to a non-empty name that holds no file.
   */
  predicate RenameMoves(vols: seq<Volume>, store: Store, node: Node, name: string)
    requires InTree(vols, node) && !node.RootNode?
  {
    Label(vols, node) != name && (node.VolumeNode? ==> name != "" && !HasVolumeContent(store, name))
  }

  /** The documents after renaming the item: its directory or its document moves to the new name. */
  function StoreAfterRename(vols: seq<Volume>, store: Store, node: Node, name: string): Store
    requires InTree(vols, node) && !node.RootNode? && RenameMoves(vols, store, node, name)
  {
    match node
    case VolumeNode(v) => MoveVolumeContent(store, vols[v].name, name)
    case ChapterNode(v, c) => MoveChapterContent(store, vols[v].name, vols[v].chapters[c].name, name)
  }

  /**
   * With distinct names before and after, a rename keeps every chapter's
   * text: each chapter reads under its new key what it read under its old
   * one, provided a renamed chapter without a document does not land on a
   * stale document of the new name.
   */
  lemma RenameKeepsChapterTexts(vols: seq<Volume>, store: Store, node: Node, name: string, i: nat, j: nat)
    requires InTree(vols, node) && !node.RootNode? && RenameMoves(vols, store, node, name)
    requires DistinctNames(vols) && DistinctNames(AfterRename(vols, node, name))
    requires node.ChapterNode? ==> (vols[node.v].name, Label(vols, node)) in store || (vols[node.v].name, name) !in store
    requires ChapterAt(vols, i, j)
    ensures var after := AfterRename(vols, node, name);
      ChapterText(StoreAfterRename(vols, store, node, name), after[i].name, after[i].chapters[j].name) ==
      ChapterText(store, vols[i].name, vols[i].chapters[j].name)
  {
    var after := AfterRename(vols, node, name);
    var r := StoreAfterRename(vols, store, node, name);
    match node {
      case VolumeNode(v) =>
        if i != v {
          assert after[i].name != after[v].name;
          assert vols[i].name != vols[v].name;
        }
      case ChapterNode(v, c) =>
        if i != v {
          assert vols[i].name != vols[v].name;
        } else if j != c {
          assert after[v].chapters[j].name != after[v].chapters[c].name;
          assert vols[v].chapters[j].name != vols[v].chapters[c].name;
        }
    }
  }

  /** The window's own fields, as one value. */
  datatype Fields = Fields(
    currentV: Index, currentC: Index,
    isGenerating: bool, isAutoPiloting: bool, isCorrecting: bool,
    genV: Index, genC: Index,
    genBuffer: string, reasoningBuffer: string, hitDelimiter: bool,
    contentView: string, thinkingView: string)

  /**
   * The commit shared by `generation_finished` and `auto_save_content`:
   * the chapter's text is saved, and its AI synopsis becomes the summary
   * only when there is one.
   */
  method CommitChapter(p: NovelProject, v: nat, c: nat, content: string, summary: string)
    requires ChapterAt(p.meta.volumes, v, c)
    modifies p
    ensures var vol := old(p.meta.volumes[v]);
      p.store == old(p.store)[(vol.name, vol.chapters[c].name) := Paragraphs(content)] &&
      ChapterText(p.store, vol.name, vol.chapters[c].name) == content
    ensures p.meta == if summary == "" then old(p.meta)
      else WithChapterAt(old(p.meta), v, c, old(p.meta.volumes[v].chapters[c]).(aiSynopsis := summary))
    ensures SameOutline(old(p.meta.volumes), p.meta.volumes)
  {
    var meta := p.meta;
    var vol := meta.volumes[v];
    var chap := vol.chapters[c];
    p.SaveChapterContent(vol.name, chap.name, content);
    if summary != "" {
      WithChapterAtOutline(meta, v, c, chap.(aiSynopsis := summary));
      p.meta := WithChapterAt(meta, v, c, chap.(aiSynopsis := summary));
    }
  }

  /** The selection names an item of the book, so `save_all` can look up the page it shows. */
  predicate SelectionNamesItem(vols: seq<Volume>, v: Index, c: Index) {
    v == -1 || (c == -1 && v < |vols|) || ChapterAt(vols, v, c)
  }

  /**
   * What the editors of the three pages hold: the outline and the
   * character cards of the global page, the synopsis of the volume page
   * and that of the chapter page.
   */
  datatype Editors = Editors(story: string, cards: seq<CharacterWidget>, volumeSynopsis: string, chapterSynopsis: string)

  /**
   * The book after `save_all` on the page the selection shows: the global
   * page (nothing selected) stores the outline and the filled cards, the
   * volume page that volume's synopsis, the chapter page that chapter's
   * synopsis, each stripped. No name changes.
   */
  function SavedMeta(meta: Meta, v: Index, c: Index, ed: Editors, roster: seq<Character>): (r: Meta)
    requires SelectionNamesItem(meta.volumes, v, c)
    ensures SameOutline(meta.volumes, r.volumes)
    ensures v != -1 && c != -1 ==> r.volumes[v].chapters[c].synopsis == Strip(ed.chapterSynopsis)
    ensures v != -1 ==> r.globalSynopsis == meta.globalSynopsis && r.characters == meta.characters
  {
    if v == -1 then meta.(globalSynopsis := Strip(ed.story), characters := KeepFilled(roster))
    else if c == -1 then WithVolumeSynopsis(meta, v, Strip(ed.volumeSynopsis))
    else
      var ch := meta.volumes[v].chapters[c].(synopsis := Strip(ed.chapterSynopsis));
      WithChapterAtOutline(meta, v, c, ch);
      WithChapterAt(meta, v, c, ch)
  }

  /** The documents after `save_all`: on the chapter page the editor's text becomes the chapter's document. */
  function SavedStore(vols: seq<Volume>, store: Store, v: Index, c: Index, content: string): Store
    requires SelectionNamesItem(vols, v, c)
  {
    if v != -1 && c != -1 then store[(vols[v].name, vols[v].chapters[c].name) := Paragraphs(content)] else store
  }

  class MainWindow {
    const project: NovelProject
    /** The selected volume and chapter of the tree. */
    var currentV: Index
    var currentC: Index
    var isGenerating: bool
    var isAutoPiloting: bool
    var isCorrecting: bool
    /** The chapter being generated. */
    var genV: Index
    var genC: Index
    /** Everything the model has written for it so far, and its reasoning. */
    var genBuffer: string
    var reasoningBuffer: string
    /** The delimiter has been seen in the buffer. */
    var hitDelimiter: bool
    /** The text of the chapter editor and of the reasoning panel. */
    var contentView: string
    var thinkingView: string

    constructor (p: NovelProject)
      ensures project == p
      ensures Snapshot() == Fields(-1, -1, false, false, false, -1, -1, "", "", false, "", "")
    {
      project := p;
      currentV, currentC := -1, -1;
      isGenerating, isAutoPiloting, isCorrecting := false, false, false;
      genV, genC := -1, -1;
      genBuffer, reasoningBuffer, hitDelimiter := "", "", false;
      contentView, thinkingView := "", "";
    }

    function Snapshot(): Fields
      reads this
    {
      Fields(currentV, currentC, isGenerating, isAutoPiloting, isCorrecting, genV, genC,
        genBuffer, reasoningBuffer, hitDelimiter, contentView, thinkingView)
    }

    /** The chapter on screen is the one being generated. */
    predicate Viewing()
      reads this
    {
      currentV == genV && currentC == genC
    }

    /** The live state of the stream, as `append_content` sees it. */
    function Stream(): Live
      reads this
    {
      Live(genBuffer, hitDelimiter, contentView)
    }

    /**
     * `build_prompts` for the selected chapter: the backward search for the
     * previous chapter, its last 1500 characters, and the history loop with
     * its fallback to volume lines.
     */
    method BuildPrompts() returns (pr: Prompt)
      requires ChapterAt(project.meta.volumes, currentV, currentC)
      ensures pr == PromptFor(project.meta, project.store, currentV, currentC)
    {
      var meta := project.meta;
      var vols := meta.volumes;
      var v: nat, c: nat := currentV, currentC;
      var previous := ReadPrevious(project, v, c);
      var history := AssembleWindowHistory(vols, v, c);
      pr := Prompt(meta.globalSynopsis, Strip(history), Strip(previous),
        vols[v].name, vols[v].synopsis, vols[v].chapters[c].name, vols[v].chapters[c].synopsis);
    }

    /**
     * `start_generation` when no generation runs: `save_all` first, so the
     * prompt for the selected chapter carries the synopsis in its editor;
     * that chapter becomes the generated one, with empty buffers and
     * editors.
     */
    method StartGeneration(ed: Editors) returns (pr: Prompt)
      requires !isGenerating && ChapterAt(project.meta.volumes, currentV, currentC)
      modifies this, project
      ensures project.meta == SavedMeta(old(project.meta), old(currentV), old(currentC), ed, old(CardData(ed.cards)))
      ensures project.store == SavedStore(old(project.meta.volumes), old(project.store), old(currentV), old(currentC), old(contentView))
      ensures pr == PromptFor(project.meta, project.store, old(currentV), old(currentC))
      ensures pr.chapterSynopsis == Strip(ed.chapterSynopsis)
      ensures Snapshot() == old(Snapshot()).(isGenerating := true, genV := old(currentV), genC := old(currentC),
        genBuffer := "", reasoningBuffer := "", hitDelimiter := false, contentView := "", thinkingView := "")
      ensures Viewing()
    {
      var saved := SaveAll(ed);
      pr := BuildPrompts();
      BeginGeneration();
    }

    /** The state half of `start_generation`: the target is fixed to the current chapter and both views start empty. */
    method BeginGeneration()
      modifies this
      ensures Snapshot() == Fields(old(currentV), old(currentC), true, old(isAutoPiloting), old(isCorrecting),
        old(currentV), old(currentC), "", "", false, "", "")
    {
      isGenerating := true;
      genV, genC := currentV, currentC;
      genBuffer, reasoningBuffer := "", "";
      contentView, thinkingView := "", "";
      hitDelimiter := false;
    }

    /** `append_thinking`: reasoning always joins its buffer and is shown when the chapter is on screen. */
    method AppendThinking(text: string)
      modifies this
      ensures Snapshot() == old(Snapshot()).(reasoningBuffer := old(reasoningBuffer) + text,
        thinkingView := if old(Viewing()) then old(thinkingView) + text else old(thinkingView))
    {
      reasoningBuffer := reasoningBuffer + text;
      if currentV == genV && currentC == genC {
        thinkingView := thinkingView + text;
      }
    }

    /** `append_content`: one step of the delimiter state machine. */
    method AppendContent(text: string)
      modifies this
      ensures Stream() == Feed(old(Stream()), text, old(Viewing()))
      ensures Snapshot() == old(Snapshot()).(genBuffer := genBuffer, hitDelimiter := hitDelimiter, contentView := contentView)
    {
      genBuffer := genBuffer + text;
      if Contains(genBuffer, SUMMARY_DELIMITER) {
        if !hitDelimiter {
          hitDelimiter := true;
          if currentV == genV && currentC == genC {
            var parts := Split(genBuffer, SUMMARY_DELIMITER);
            contentView := Strip(parts[0]);
          }
        }
      } else if currentV == genV && currentC == genC {
        contentView := contentView + text;
      }
    }

    /**
     * `generation_finished`: the prose before the first delimiter is saved
     * to the generated chapter, the synopsis after it becomes the chapter's
     * AI synopsis when it is not empty, and the generation ends. Indices
     * that no longer name a chapter make the handler fail (`IndexError`)
     * before it changes anything.
     */
    method GenerationFinished() returns (ok: bool)
      modifies this, project
      ensures ok <==> old(genV) == -1 || old(genC) == -1 || ChapterAt(old(project.meta.volumes), old(genV), old(genC))
      ensures !ok ==> Snapshot() == old(Snapshot()) && project.meta == old(project.meta) && project.store == old(project.store)
      ensures ok && (old(genV) == -1 || old(genC) == -1) ==>
        project.meta == old(project.meta) && project.store == old(project.store) && contentView == old(contentView)
      ensures ok && old(genV) != -1 && old(genC) != -1 ==>
        var reply := SplitReply(old(genBuffer));
        var v: nat, c: nat := old(genV), old(genC);
        var vol := old(project.meta.volumes[v]);
        project.store == old(project.store)[(vol.name, vol.chapters[c].name) := Paragraphs(reply.content)] &&
        ChapterText(project.store, vol.name, vol.chapters[c].name) == reply.content &&
        project.meta == (if reply.summary == "" then old(project.meta)
          else WithChapterAt(old(project.meta), v, c, vol.chapters[c].(aiSynopsis := reply.summary))) &&
        contentView == if old(Viewing()) then reply.content else old(contentView)
      ensures ok ==> Snapshot() == old(Snapshot()).(isGenerating := false, genV := -1, genC := -1, contentView := contentView)
      ensures SameOutline(old(project.meta.volumes), project.meta.volumes)
    {
      if genV != -1 && genC != -1 && !ChapterAt(project.meta.volumes, genV, genC) {
        return false;
      }
      FinishGeneration();
      ok := true;
    }

    /** `generation_finished` once its indices are known to be sound. */
    method FinishGeneration()
      requires genV == -1 || genC == -1 || ChapterAt(project.meta.volumes, genV, genC)
      modifies this, project
      ensures old(genV) == -1 || old(genC) == -1 ==>
        project.meta == old(project.meta) && project.store == old(project.store) && contentView == old(contentView)
      ensures old(genV) != -1 && old(genC) != -1 ==>
        var reply := SplitReply(old(genBuffer));
        var v: nat, c: nat := old(genV), old(genC);
        var vol := old(project.meta.volumes[v]);
        project.store == old(project.store)[(vol.name, vol.chapters[c].name) := Paragraphs(reply.content)] &&
        ChapterText(project.store, vol.name, vol.chapters[c].name) == reply.content &&
        project.meta == (if reply.summary == "" then old(project.meta)
          else WithChapterAt(old(project.meta), v, c, vol.chapters[c].(aiSynopsis := reply.summary))) &&
        contentView == if old(Viewing()) then reply.content else old(contentView)
      ensures Snapshot() == Fields(old(currentV), old(currentC), false, old(isAutoPiloting), old(isCorrecting), -1, -1,
        old(genBuffer), old(reasoningBuffer), old(hitDelimiter), contentView, old(thinkingView))
      ensures SameOutline(old(project.meta.volumes), project.meta.volumes)
    {
      if genV != -1 && genC != -1 {
        CommitReply(genV, genC, SplitReply(genBuffer));
      }
      isGenerating := false;
      genV, genC := -1, -1;
    }

    /** The commit step of `generation_finished`: the reply shown when its chapter is on screen, then saved. */
    method CommitReply(v: nat, c: nat, reply: Reply)
      requires ChapterAt(project.meta.volumes, v, c)
      modifies this, project
      ensures var vol := old(project.meta.volumes[v]);
        project.store == old(project.store)[(vol.name, vol.chapters[c].name) := Paragraphs(reply.content)] &&
        ChapterText(project.store, vol.name, vol.chapters[c].name) == reply.content &&
        project.meta == (if reply.summary == "" then old(project.meta)
          else WithChapterAt(old(project.meta), v, c, vol.chapters[c].(aiSynopsis := reply.summary)))
      ensures contentView == if old(currentV == v && currentC == c) then reply.content else old(contentView)
      ensures Snapshot() == old(Snapshot()).(contentView := contentView)
      ensures SameOutline(old(project.meta.volumes), project.meta.volumes)
    {
      if currentV == v && currentC == c {
        contentView := reply.content;
      }
      CommitChapter(project, v, c, reply.content, reply.summary);
    }

    /** `auto_pilot_finished`: the window leaves autopilot mode. */
    method AutoPilotFinished()
      modifies this
      ensures Snapshot() == old(Snapshot()).(isAutoPiloting := false)
    {
      isAutoPiloting := false;
    }

    /**
     * `start_correction`: refused without an API key, without a selected
     * chapter when one chapter is to be corrected, or without the user's
     * confirmation; otherwise `save_all` writes the page on screen and the
     * window enters correction mode with an empty reasoning panel. A
     * selection that names no item makes `save_all` raise first.
     */
    method StartCorrection(hasKey: bool, chapterScope: bool, confirmed: bool, ed: Editors) returns (started: bool)
      modifies this, project
      ensures started <==>
        && hasKey && (chapterScope ==> old(currentV) != -1 && old(currentC) != -1) && confirmed
        && SelectionNamesItem(old(project.meta.volumes), old(currentV), old(currentC))
      ensures started ==> Snapshot() == old(Snapshot()).(isCorrecting := true, thinkingView := "")
      ensures started ==>
        project.meta == SavedMeta(old(project.meta), old(currentV), old(currentC), ed, old(CardData(ed.cards))) &&
        project.store == SavedStore(old(project.meta.volumes), old(project.store), old(currentV), old(currentC), old(contentView))
      ensures !started ==> Snapshot() == old(Snapshot()) && project.meta == old(project.meta) && project.store == old(project.store)
    {
      if !hasKey || (chapterScope && (currentV == -1 || currentC == -1)) || !confirmed {
        return false;
      }
      var saved := SaveAll(ed);
      if !saved {
        return false;
      }
      isCorrecting := true;
      thinkingView := "";
      started := true;
    }

    /** `correction_finished`: the window leaves correction mode. */
    method CorrectionFinished()
      modifies this
      ensures Snapshot() == old(Snapshot()).(isCorrecting := false)
    {
      isCorrecting := false;
    }

    /** `handle_error`: ends the autopilot when it runs, else ends the generation with what it has. */
    method HandleError() returns (ok: bool)
      modifies this, project
      ensures old(isAutoPiloting) ==>
        ok && Snapshot() == old(Snapshot()).(isAutoPiloting := false) &&
        project.meta == old(project.meta) && project.store == old(project.store)
      ensures !old(isAutoPiloting) ==> !isAutoPiloting && (ok ==> !isGenerating && genV == -1 && genC == -1)
      ensures !old(isAutoPiloting) && (old(genV) == -1 || old(genC) == -1) ==>
        ok && Snapshot() == old(Snapshot()).(isGenerating := false, genV := -1, genC := -1) &&
        project.meta == old(project.meta) && project.store == old(project.store)
      ensures isCorrecting == old(isCorrecting) && currentV == old(currentV) && currentC == old(currentC)
      ensures reasoningBuffer == old(reasoningBuffer)
      ensures SameOutline(old(project.meta.volumes), project.meta.volumes)
    {
      if isAutoPiloting {
        AutoPilotFinished();
        ok := true;
      } else {
        ok := GenerationFinished();
      }
    }

    /**
     * `apply_corrected_text`: the corrected prose replaces the chapter's
     * text, the AI synopsis changes only to a non-empty new summary, and
     * the editor shows the new prose when the chapter is on screen.
     */
    method ApplyCorrectedText(v: nat, c: nat, content: string, summary: string)
      requires ChapterAt(project.meta.volumes, v, c)
      modifies this, project
      ensures var vol := old(project.meta.volumes[v]);
        project.store == old(project.store)[(vol.name, vol.chapters[c].name) := Paragraphs(content)] &&
        ChapterText(project.store, vol.name, vol.chapters[c].name) == content
      ensures project.meta == WithChapterAt(old(project.meta), v, c,
        old(project.meta.volumes[v].chapters[c]).(aiSynopsis := if summary != "" then summary else old(project.meta.volumes[v].chapters[c].aiSynopsis)))
      ensures Snapshot() == old(Snapshot()).(contentView := if old(currentV) == v && old(currentC) == c then content else old(contentView))
      ensures SameOutline(old(project.meta.volumes), project.meta.volumes)
    {
      var vol := project.meta.volumes[v];
      var chap := vol.chapters[c];
      project.SaveChapterContent(vol.name, chap.name, content);
      if summary != "" && summary != chap.aiSynopsis {
        WithChapterAtOutline(project.meta, v, c, chap.(aiSynopsis := summary));
        project.meta := WithChapterAt(project.meta, v, c, chap.(aiSynopsis := summary));
      } else {
        WithChapterAtSame(project.meta, v, c);
      }
      if currentV == v && currentC == c {
        contentView := content;
      }
    }

    /** `auto_update_volume`: the volume's synopsis is replaced. */
    method AutoUpdateVolume(v: nat, synopsis: string)
      requires v < |project.meta.volumes|
      modifies project
      ensures project.meta == WithVolumeSynopsis(old(project.meta), v, synopsis)
      ensures project.store == old(project.store)
    {
      project.meta := WithVolumeSynopsis(project.meta, v, synopsis);
    }

    /**
     * `auto_update_chapter`: the AI synopsis is always replaced; the
     * visible synopsis is filled with it only when it was blank, so a
     * synopsis the user wrote is never overwritten.
     */
    method AutoUpdateChapter(v: nat, c: nat, aiSynopsis: string)
      requires ChapterAt(project.meta.volumes, v, c)
      modifies project
      ensures project.meta == WithChapterAt(old(project.meta), v, c, AutoUpdated(old(project.meta.volumes[v].chapters[c]), aiSynopsis))
      ensures project.store == old(project.store)
    {
      var chap := project.meta.volumes[v].chapters[c];
      chap := chap.(aiSynopsis := aiSynopsis);
      if IsBlank(chap.synopsis) {
        chap := chap.(synopsis := aiSynopsis);
      }
      project.meta := WithChapterAt(project.meta, v, c, chap);
    }

    /** `auto_add_volume`: a volume the planner proposed is appended. */
    method AutoAddVolume(name: string, synopsis: string)
      modifies project
      ensures project.meta == old(project.meta).(volumes := old(project.meta.volumes) + [Volume(name, synopsis, [])])
      ensures project.store == old(project.store)
    {
      project.AddVolume(name, synopsis);
    }

    /** `auto_add_chapter`: a planned chapter is appended with its AI synopsis shown as its synopsis too. */
    method AutoAddChapter(v: nat, name: string, aiSynopsis: string)
      requires v < |project.meta.volumes|
      modifies project
      ensures project.meta == old(project.meta).(volumes := old(project.meta.volumes)[v :=
        WithChapter(old(project.meta.volumes[v]), Chapter(name, aiSynopsis, aiSynopsis))])
      ensures var key := (old(project.meta.volumes[v].name), name);
        project.store == if key in old(project.store) then old(project.store) else old(project.store)[key := []]
    {
      project.AddChapter(v, name, aiSynopsis, aiSynopsis);
    }

    /**
     * `auto_start_chapter`: the autopilot's next chapter becomes the
     * generated one with empty buffers; when it is in the tree it is
     * selected, and an active generation shows its (empty) live buffers.
     */
    method AutoStartChapter(v: nat, c: nat)
      modifies this
      ensures genV == v && genC == c && genBuffer == "" && reasoningBuffer == "" && !hitDelimiter
      ensures isGenerating == old(isGenerating) && isAutoPiloting == old(isAutoPiloting) && isCorrecting == old(isCorrecting)
      ensures !ChapterAt(project.meta.volumes, v, c) ==>
        currentV == old(currentV) && currentC == old(currentC) && contentView == old(contentView) && thinkingView == old(thinkingView)
      ensures ChapterAt(project.meta.volumes, v, c) ==> currentV == v && currentC == c && Viewing() && thinkingView == ""
      ensures ChapterAt(project.meta.volumes, v, c) ==>
        contentView == if isGenerating || isAutoPiloting then ""
          else ChapterText(project.store, project.meta.volumes[v].name, project.meta.volumes[v].chapters[c].name)
    {
      genV, genC := v, c;
      genBuffer, reasoningBuffer := "", "";
      hitDelimiter := false;
      if v < |project.meta.volumes| && c < |project.meta.volumes[v].chapters| {
        currentV, currentC := v, c;
        if isGenerating || isAutoPiloting {
          contentView := genBuffer;
          thinkingView := reasoningBuffer;
        } else {
          var vol := project.meta.volumes[v];
          contentView := project.ReadChapterContent(vol.name, vol.chapters[c].name);
          thinkingView := "";
        }
      }
    }

    /** `auto_save_content`: the autopilot's chapter text is saved, with its synopsis when there is one. */
    method AutoSaveContent(v: nat, c: nat, content: string, summary: string)
      requires ChapterAt(project.meta.volumes, v, c)
      modifies this, project
      ensures var vol := old(project.meta.volumes[v]);
        project.store == old(project.store)[(vol.name, vol.chapters[c].name) := Paragraphs(content)] &&
        ChapterText(project.store, vol.name, vol.chapters[c].name) == content
      ensures project.meta == if summary == "" then old(project.meta)
        else WithChapterAt(old(project.meta), v, c, old(project.meta.volumes[v].chapters[c]).(aiSynopsis := summary))
      ensures Snapshot() == old(Snapshot()).(hitDelimiter := false)
      ensures SameOutline(old(project.meta.volumes), project.meta.volumes)
    {
      CommitChapter(project, v, c, content, summary);
      hitDelimiter := false;
    }

    /**
     * `ui_delete_item`: refused for the generated chapter and its volume
     * while a generation runs, and when the user does not confirm;
     * otherwise the item and its documents go and the selection is
     * cleared. The stored generation target is left as it was, so it can
     * name another chapter afterwards (`DeleteShiftsGenerationTarget`).
     */
    method UiDeleteItem(node: Node, confirmed: bool) returns (deleted: bool)
      requires InTree(project.meta.volumes, node)
      modifies this, project
      ensures deleted <==> !node.RootNode? && !DeleteRefused(old(isGenerating), old(genV), old(genC), node) && confirmed
      ensures !deleted ==> Snapshot() == old(Snapshot()) && project.meta == old(project.meta) && project.store == old(project.store)
      ensures deleted ==> project.meta == old(project.meta).(volumes := AfterDelete(old(project.meta.volumes), node))
      ensures deleted ==> project.store == StoreAfterDelete(old(project.meta.volumes), old(project.store), node)
      ensures deleted ==> Snapshot() == old(Snapshot()).(currentV := -1, currentC := -1)
    {
      if node.RootNode? || DeleteRefused(isGenerating, genV, genC, node) || !confirmed {
        return false;
      }
      match node {
        case VolumeNode(v) =>
          project.DeleteVolume(v);
        case ChapterNode(v, c) =>
          project.DeleteChapter(v, c);
      }
      currentV, currentC := -1, -1;
      deleted := true;
    }

    /**
     * `ui_rename_item`: when the user accepts a non-empty input whose
     * stripped form differs from the current name, the item is renamed to
     * that stripped form and its directory or document moves with it. A
     * volume's directory cannot move onto one that holds files or onto the
     * project's own directory (the empty name); the move then raises and
     * nothing changes.
     */
    method UiRenameItem(node: Node, accepted: bool, input: string) returns (renamed: bool)
      requires InTree(project.meta.volumes, node)
      modifies project
      ensures renamed <==>
        && !node.RootNode?
        && RenameAcceptedAsWritten(accepted, input, Label(old(project.meta.volumes), node))
        && RenameMoves(old(project.meta.volumes), old(project.store), node, Strip(input))
      ensures !renamed ==> project.meta == old(project.meta) && project.store == old(project.store)
      ensures renamed ==> project.meta == old(project.meta).(volumes := AfterRename(old(project.meta.volumes), node, Strip(input)))
      ensures renamed ==> project.store == StoreAfterRename(old(project.meta.volumes), old(project.store), node, Strip(input))
    {
      if node.RootNode? {
        return false;
      }
      var oldName := Label(project.meta.volumes, node);
      if !RenameAcceptedAsWritten(accepted, input, oldName) {
        return false;
      }
      var newName := Strip(input);
      match node {
        case VolumeNode(v) =>
          renamed := project.RenameVolume(v, newName);
        case ChapterNode(v, c) =>
          project.RenameChapter(v, c, newName);
          renamed := true;
      }
    }

    /**
     * `save_all`: writes the page the selection shows, the chapter page
     * also the editor's text as the chapter's document. The selection's
     * indices are looked up before anything is written, so one that names
     * no item raises (`IndexError`) and nothing changes (`ok` is false).
     */
    method SaveAll(ed: Editors) returns (ok: bool)
      modifies project
      ensures ok <==> SelectionNamesItem(old(project.meta.volumes), currentV, currentC)
      ensures !ok ==> project.meta == old(project.meta) && project.store == old(project.store)
      ensures ok ==>
        project.meta == SavedMeta(old(project.meta), currentV, currentC, ed, old(CardData(ed.cards))) &&
        project.store == SavedStore(old(project.meta.volumes), old(project.store), currentV, currentC, contentView)
      ensures ok && currentV != -1 && currentC != -1 ==>
        ChapterText(project.store, project.meta.volumes[currentV].name, project.meta.volumes[currentV].chapters[currentC].name) == contentView
    {
      var vols := project.meta.volumes;
      if currentV == -1 {
        SaveGlobalMeta(ed.story, ed.cards);
        return true;
      }
      if currentC == -1 {
        if currentV >= |vols| {
          return false;
        }
        project.meta := WithVolumeSynopsis(project.meta, currentV, Strip(ed.volumeSynopsis));
        return true;
      }
      if !ChapterAt(vols, currentV, currentC) {
        return false;
      }
      var v: nat, c: nat := currentV, currentC;
      var chap := vols[v].chapters[c];
      project.meta := WithChapterAt(project.meta, v, c, chap.(synopsis := Strip(ed.chapterSynopsis)));
      project.SaveChapterContent(vols[v].name, chap.name, contentView);
      ok := true;
    }

    /**
     * `save_global_meta`: the outline is stored stripped, and the roster
     * becomes the cards' trimmed data without the entirely empty cards.
     */
    method SaveGlobalMeta(input: string, cards: seq<CharacterWidget>)
      modifies project
      ensures project.meta == old(project.meta).(globalSynopsis := Strip(input), characters := old(KeepFilled(CardData(cards))))
      ensures project.store == old(project.store)
    {
      var meta := project.meta;
      var chars := CollectCharacters(cards);
      project.meta := meta.(globalSynopsis := Strip(input), characters := chars);
    }
  }

  /** A chapter after `auto_update_chapter`. */
  function AutoUpdated(ch: Chapter, aiSynopsis: string): (r: Chapter)
    ensures r.name == ch.name && r.aiSynopsis == aiSynopsis
    ensures !IsBlank(ch.synopsis) ==> r.synopsis == ch.synopsis
    ensures IsBlank(ch.synopsis) ==> r.synopsis == aiSynopsis
  {
    Chapter(ch.name, if IsBlank(ch.synopsis) then aiSynopsis else ch.synopsis, aiSynopsis)
  }

  /** After an update with a non-blank AI synopsis the visible synopsis is never blank. */
  lemma AutoUpdatedNotBlank(ch: Chapter, aiSynopsis: string)
    requires !IsBlank(aiSynopsis)
    ensures !IsBlank(AutoUpdated(ch, aiSynopsis).synopsis)
  {
  }
}
