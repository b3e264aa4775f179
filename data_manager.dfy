/**
 * The book store of the novel assistant: the project's meta record (an
 * ordered list of volumes, each an ordered list of chapters) and the prose
 * of each chapter, kept per (volume name, chapter name) as a list of
 * paragraphs, the way a `.docx` file under `<root>/<volume>/<chapter>.docx`
 * holds it.
 */
module DataManager {
  import opened Text

  datatype Chapter = Chapter(name: string, synopsis: string, aiSynopsis: string)

  datatype Volume = Volume(name: string, synopsis: string, chapters: seq<Chapter>)

  datatype Character = Character(name: string, gender: string, personality: string, experience: string)

  datatype Meta = Meta(title: string, globalSynopsis: string, characters: seq<Character>, volumes: seq<Volume>)

  /** A chapter file: the directory of its volume and the chapter's name. */
  type Key = (string, string)

  /** The chapter files on disk: the paragraphs of each document. */
  type Store = map<Key, seq<string>>

  const NEWLINE: string := "\n"

  /** The sequence with position `i` removed (Python's `del s[i]`). */
  function RemoveAt<T>(s: seq<T>, i: nat): (r: seq<T>)
    requires i < |s|
    ensures |r| == |s| - 1
    ensures forall j :: 0 <= j < i ==> r[j] == s[j]
    ensures forall j :: i <= j < |r| ==> r[j] == s[j + 1]
  {
    s[..i] + s[i + 1..]
  }

  /** Some chapter file lies in the directory of volume `vol`. */
  predicate HasVolumeContent(store: Store, vol: string) {
    exists k :: k in store && k.0 == vol
  }

  /**
   * The files after the directory `from` is renamed to `to`, which holds no
   * file: every document of `from` is now found under `to`.
   */
  function MoveVolumeContent(store: Store, from: string, to: string): (r: Store)
    requires from != to && !HasVolumeContent(store, to)
    ensures forall c :: (from, c) !in r
    ensures forall c :: (to, c) in r <==> (from, c) in store
    ensures forall c :: (to, c) in r ==> r[(to, c)] == store[(from, c)]
    ensures forall k: Key :: k.0 != from && k.0 != to ==> (k in r <==> k in store)
    ensures forall k: Key :: k in r && k.0 != from && k.0 != to ==> r[k] == store[k]
  {
    var kept := map k | k in store && k.0 != from :: store[k];
    var moved := map k | k in store && k.0 == from :: (to, k.1) := store[k];
    assert forall c :: (to, c) in moved <==> (from, c) in store by {
      forall c ensures (to, c) in moved ==> (from, c) in store {
        if (to, c) in moved {
          var k :| k in store && k.0 == from && (to, k.1) == (to, c);
          assert k == (from, c);
        }
      }
    }
    kept + moved
  }

  /** The files after the directory of volume `vol` is removed with everything in it. */
  function DropVolumeContent(store: Store, vol: string): (r: Store)
    ensures forall k :: k in r <==> k in store && k.0 != vol
    ensures forall k :: k in r ==> r[k] == store[k]
  {
    map k | k in store && k.0 != vol :: store[k]
  }

  /**
   * The files after `<vol>/<from>.docx` is renamed to `<vol>/<to>.docx`:
   * a file already there is replaced, and nothing happens when the source
   * file does not exist.
   */
  function MoveChapterContent(store: Store, vol: string, from: string, to: string): (r: Store)
    requires from != to
    ensures (vol, from) !in store ==> r == store
    ensures (vol, from) in store ==> (vol, from) !in r && (vol, to) in r && r[(vol, to)] == store[(vol, from)]
    ensures forall k: Key :: k != (vol, from) && k != (vol, to) ==> (k in r <==> k in store)
    ensures forall k: Key :: k in r && k != (vol, from) && k != (vol, to) ==> r[k] == store[k]
  {
    if (vol, from) in store then (store - {(vol, from)})[(vol, to) := store[(vol, from)]]
    else store
  }

  /** The volume with one more chapter at its end. */
  function WithChapter(vol: Volume, ch: Chapter): (r: Volume)
    ensures r.name == vol.name && r.synopsis == vol.synopsis
    ensures |r.chapters| == |vol.chapters| + 1
    ensures r.chapters[..|vol.chapters|] == vol.chapters && r.chapters[|vol.chapters|] == ch
  {
    vol.(chapters := vol.chapters + [ch])
  }

  /** The prose of a document: its paragraphs joined by line breaks. */
  function DocumentText(paragraphs: seq<string>): string {
    Join(NEWLINE, paragraphs)
  }

  /** The paragraphs a text is written as: one per line. */
  function Paragraphs(content: string): (r: seq<string>)
    ensures |r| >= 1
    ensures DocumentText(r) == content
  {
    JoinSplit(content, NEWLINE);
    Split(content, NEWLINE)
  }

  /** The text of a chapter file: its paragraphs joined by line breaks, or "" when there is no file. */
  function ChapterText(store: Store, vol: string, chap: string): (r: string)
    ensures (vol, chap) !in store ==> r == ""
    ensures (vol, chap) in store ==> r == DocumentText(store[(vol, chap)])
  {
    if (vol, chap) in store then DocumentText(store[(vol, chap)]) else ""
  }

  /** Saving a text and reading it back gives the text. */
  lemma SavedTextReadsBack(store: Store, vol: string, chap: string, content: string)
    ensures ChapterText(store[(vol, chap) := Paragraphs(content)], vol, chap) == content
  {
  }

  class NovelProject {
    /** The content of `meta.json`. */
    var meta: Meta
    /** The chapter documents under the project's root directory. */
    var store: Store

    /** A project opened on a directory without `meta.json`. */
    constructor (title: string)
      ensures meta == Meta(title, "", [], [])
      ensures store == map[]
    {
      meta := Meta(title, "", [], []);
      store := map[];
    }

    /** `add_volume`: one new empty volume at the end; no check for a duplicate name. */
    method AddVolume(name: string, synopsis: string)
      modifies this
      ensures meta == old(meta).(volumes := old(meta.volumes) + [Volume(name, synopsis, [])])
      ensures store == old(store)
    {
      meta := meta.(volumes := meta.volumes + [Volume(name, synopsis, [])]);
    }

    /**
     * `add_chapter`: one new chapter at the end of volume `v`, and an empty
     * document for it unless a document of that name already exists.
     */
    method AddChapter(v: nat, name: string, synopsis: string, aiSynopsis: string)
      requires v < |meta.volumes|
      modifies this
      ensures meta == old(meta).(volumes := old(meta.volumes)[v := WithChapter(old(meta.volumes[v]), Chapter(name, synopsis, aiSynopsis))])
      ensures (old(meta.volumes[v].name), name) in old(store) ==> store == old(store)
      ensures (old(meta.volumes[v].name), name) !in old(store) ==> store == old(store)[(old(meta.volumes[v].name), name) := []]
    {
      var key := (meta.volumes[v].name, name);
      if key !in store {
        store := store[key := []];
      }
      meta := meta.(volumes := meta.volumes[v := WithChapter(meta.volumes[v], Chapter(name, synopsis, aiSynopsis))]);
    }

    /**
     * `rename_volume`: nothing happens when the name is unchanged; otherwise
     * the volume's directory moves to the new name and only that volume's
     * name changes. Moving a directory onto one that holds files fails, and
     * so does the empty name, which denotes the project's own directory
     * (it holds `meta.json`); then nothing changes (`ok` is false).
     */
    method RenameVolume(v: nat, newName: string) returns (ok: bool)
      requires v < |meta.volumes|
      modifies this
      ensures ok <==> (old(meta.volumes[v].name) == newName || (newName != "" && !HasVolumeContent(old(store), newName)))
      ensures !ok || old(meta.volumes[v].name) == newName ==> meta == old(meta) && store == old(store)
      ensures ok && old(meta.volumes[v].name) != newName ==>
        meta == old(meta).(volumes := old(meta.volumes)[v := old(meta.volumes[v]).(name := newName)]) &&
        store == MoveVolumeContent(old(store), old(meta.volumes[v].name), newName)
    {
      var oldName := meta.volumes[v].name;
      if oldName == newName {
        return true;
      }
      if newName == "" || HasVolumeContent(store, newName) {
        return false;
      }
      store := MoveVolumeContent(store, oldName, newName);
      meta := meta.(volumes := meta.volumes[v := meta.volumes[v].(name := newName)]);
      ok := true;
    }

    /**
     * `rename_chapter`: nothing happens when the name is unchanged; otherwise
     * the chapter's document moves to the new name and only that chapter's
     * name changes.
     */
    method RenameChapter(v: nat, c: nat, newName: string)
      requires v < |meta.volumes| && c < |meta.volumes[v].chapters|
      modifies this
      ensures old(meta.volumes[v].chapters[c].name) == newName ==> meta == old(meta) && store == old(store)
      ensures old(meta.volumes[v].chapters[c].name) != newName ==>
        meta == old(meta).(volumes := old(meta.volumes)[v := old(meta.volumes[v]).(chapters :=
          old(meta.volumes[v].chapters)[c := old(meta.volumes[v].chapters[c]).(name := newName)])]) &&
        store == MoveChapterContent(old(store), old(meta.volumes[v].name), old(meta.volumes[v].chapters[c].name), newName)
    {
      var vol := meta.volumes[v];
      var oldName := vol.chapters[c].name;
      if oldName == newName {
        return;
      }
      store := MoveChapterContent(store, vol.name, oldName, newName);
      var chapters := vol.chapters[c := vol.chapters[c].(name := newName)];
      meta := meta.(volumes := meta.volumes[v := vol.(chapters := chapters)]);
    }

    /** `delete_volume`: volume `v` and every document of its directory are gone. */
    method DeleteVolume(v: nat)
      requires v < |meta.volumes|
      modifies this
      ensures meta == old(meta).(volumes := RemoveAt(old(meta.volumes), v))
      ensures store == DropVolumeContent(old(store), old(meta.volumes[v].name))
    {
      store := DropVolumeContent(store, meta.volumes[v].name);
      meta := meta.(volumes := RemoveAt(meta.volumes, v));
    }

    /** `delete_chapter`: chapter `c` of volume `v` and its document are gone. */
    method DeleteChapter(v: nat, c: nat)
      requires v < |meta.volumes| && c < |meta.volumes[v].chapters|
      modifies this
      ensures meta == old(meta).(volumes := old(meta.volumes)[v := old(meta.volumes[v]).(chapters :=
        RemoveAt(old(meta.volumes[v].chapters), c))])
      ensures store == old(store) - {(old(meta.volumes[v].name), old(meta.volumes[v].chapters[c].name))}
    {
      var vol := meta.volumes[v];
      store := store - {(vol.name, vol.chapters[c].name)};
      meta := meta.(volumes := meta.volumes[v := vol.(chapters := RemoveAt(vol.chapters, c))]);
    }

    /** `read_chapter_content`: the document's lines, or the empty text when there is none. */
    function ReadChapterContent(vol: string, chap: string): (r: string)
      reads this
      ensures r == ChapterText(store, vol, chap)
    {
      if (vol, chap) in store then DocumentText(store[(vol, chap)]) else ""
    }

    /**
     * `save_chapter_content`: the document is rewritten with one paragraph
     * per line, so reading it back gives the saved text.
     */
    method SaveChapterContent(vol: string, chap: string, content: string)
      modifies this
      ensures store == old(store)[(vol, chap) := Paragraphs(content)]
      ensures meta == old(meta)
      ensures ChapterText(store, vol, chap) == content
    {
      SavedTextReadsBack(store, vol, chap, content);
      store := store[(vol, chap) := Paragraphs(content)];
    }
  }
}
