/**
 * Two pieces of the dialogs: the list of recently opened projects, most
 * recent first, and the character card whose fields are read back trimmed.
 */
module UiComponents {
  import opened Text
  import opened DataManager

  /** The list with the first occurrence of `x` removed (Python's `list.remove`). */
  function RemoveFirst<T(==)>(s: seq<T>, x: T): (r: seq<T>)
    ensures x !in s ==> r == s
    ensures x in s ==> |r| == |s| - 1
  {
    if |s| == 0 then []
    else if s[0] == x then s[1..]
    else [s[0]] + RemoveFirst(s[1..], x)
  }

  /** Removing the first occurrence splits the list around the position of that occurrence. */
  lemma {:induction false} RemoveFirstAt<T>(s: seq<T>, x: T) returns (i: nat)
    requires x in s
    ensures i < |s| && s[i] == x && x !in s[..i]
    ensures RemoveFirst(s, x) == s[..i] + s[i + 1..]
  {
    if s[0] == x {
      i := 0;
    } else {
      var j := RemoveFirstAt(s[1..], x);
      i := j + 1;
      assert s[..i] == [s[0]] + s[1..][..j];
      assert s[i + 1..] == s[1..][j + 1..];
    }
  }

  /** The recent list after opening `p`: `p` first, then the others in their old order. */
  function MoveToFront<T(==)>(s: seq<T>, p: T): seq<T> {
    [p] + RemoveFirst(s, p)
  }

  /** An opened project is at the head of the list. */
  lemma MoveToFrontHead<T>(s: seq<T>, p: T)
    ensures |MoveToFront(s, p)| >= 1 && MoveToFront(s, p)[0] == p
  {
  }

  /**
   * A project not in the list is added in front of the unchanged list; one
   * already in it is moved to the front, so the length stays the same.
   */
  lemma MoveToFrontLength<T>(s: seq<T>, p: T)
    ensures p !in s ==> MoveToFront(s, p) == [p] + s
    ensures p in s ==> |MoveToFront(s, p)| == |s|
  {
  }

  /** Removing the first occurrence of a present entry takes exactly one copy of it away. */
  lemma {:induction false} RemoveFirstMultiset<T>(s: seq<T>, x: T)
    requires x in s
    ensures multiset(RemoveFirst(s, x)) + multiset{x} == multiset(s)
    decreases |s|
  {
    assert s == [s[0]] + s[1..];
    if s[0] != x {
      RemoveFirstMultiset(s[1..], x);
    }
  }

  /** No entry is lost or duplicated: the list gains `p` only when it was not already there. */
  lemma MoveToFrontPermutes<T>(s: seq<T>, p: T)
    ensures p in s ==> multiset(MoveToFront(s, p)) == multiset(s)
    ensures p !in s ==> multiset(MoveToFront(s, p)) == multiset(s) + multiset{p}
  {
    if p in s {
      RemoveFirstMultiset(s, p);
    }
  }

  /** No entry occurs twice. */
  predicate Distinct<T(==)>(s: seq<T>) {
    forall a, b :: 0 <= a < b < |s| ==> s[a] != s[b]
  }

  lemma DistinctCons<T>(x: T, t: seq<T>)
    requires x !in t && Distinct(t)
    ensures Distinct([x] + t)
  {
    var r := [x] + t;
    forall a, b | 0 <= a < b < |r| ensures r[a] != r[b] {
      assert r[b] == t[b - 1];
      if a > 0 {
        assert r[a] == t[a - 1];
      }
    }
  }

  /** Removing an entry from a list without repeats leaves one without repeats and without that entry. */
  lemma {:induction false} RemoveFirstDistinct<T>(s: seq<T>, x: T)
    requires Distinct(s)
    ensures Distinct(RemoveFirst(s, x)) && x !in RemoveFirst(s, x)
    decreases |s|
  {
    if |s| > 0 {
      var t := s[1..];
      assert Distinct(t) by {
        forall a, b | 0 <= a < b < |t| ensures t[a] != t[b] {
          assert t[a] == s[a + 1] && t[b] == s[b + 1];
        }
      }
      if s[0] == x {
        forall k | 0 <= k < |t| ensures t[k] != x {
          assert t[k] == s[k + 1];
        }
      } else {
        RemoveFirstDistinct(t, x);
        RemoveFirstSubset(t, x);
        assert s[0] !in t by {
          forall k | 0 <= k < |t| ensures t[k] != s[0] {
            assert t[k] == s[k + 1];
          }
        }
        DistinctCons(s[0], RemoveFirst(t, x));
      }
    }
  }

  /** Removal adds no entry. */
  lemma {:induction false} RemoveFirstSubset<T>(s: seq<T>, x: T)
    ensures forall y :: y in RemoveFirst(s, x) ==> y in s
    decreases |s|
  {
    if |s| > 0 && s[0] != x {
      RemoveFirstSubset(s[1..], x);
      assert s == [s[0]] + s[1..];
    }
  }

  /** Moving to the front keeps a list without repeated entries free of repeats. */
  lemma MoveToFrontDistinct<T>(s: seq<T>, p: T)
    requires Distinct(s)
    ensures Distinct(MoveToFront(s, p))
  {
    RemoveFirstDistinct(s, p);
    DistinctCons(p, RemoveFirst(s, p));
  }

  /** The welcome dialog's stored list of recently opened project directories. */
  class WelcomeDialog {
    var recent: seq<string>

    constructor (stored: seq<string>)
      ensures recent == stored
    {
      recent := stored;
    }

    /** `update_recent`: remove the path if present, then insert it at the front. */
    method UpdateRecent(path: string)
      modifies this
      ensures recent == MoveToFront(old(recent), path)
    {
      var paths := recent;
      if path in paths {
        paths := RemoveFirst(paths, path);
      }
      paths := [path] + paths;
      recent := paths;
    }
  }

  /** The card as read back: every field with its surrounding white space removed. */
  function Trimmed(c: Character): (r: Character)
    ensures r.name == Strip(c.name) && r.gender == Strip(c.gender)
    ensures r.personality == Strip(c.personality) && r.experience == Strip(c.experience)
  {
    Character(Strip(c.name), Strip(c.gender), Strip(c.personality), Strip(c.experience))
  }

  /** Reading back a card filled from trimmed data gives the same data. */
  lemma TrimmedIdempotent(c: Character)
    ensures Trimmed(Trimmed(c)) == Trimmed(c)
  {
    StripIdempotent(c.name);
    StripIdempotent(c.gender);
    StripIdempotent(c.personality);
    StripIdempotent(c.experience);
  }

  /** One character card of the global settings page. */
  class CharacterWidget {
    var name: string
    var gender: string
    var personality: string
    var experience: string

    /** A card filled from a stored character, or blank. */
    constructor (init: Option<Character>)
      ensures init.Some? ==> name == init.value.name && gender == init.value.gender
      ensures init.Some? ==> personality == init.value.personality && experience == init.value.experience
      ensures init.None? ==> name == "" && gender == "" && personality == "" && experience == ""
    {
      match init
      case Some(c) =>
        name, gender, personality, experience := c.name, c.gender, c.personality, c.experience;
      case None =>
        name, gender, personality, experience := "", "", "", "";
    }

    /** `get_data`: the four fields, each trimmed. */
    function GetData(): (d: Character)
      reads this
      ensures d.name == Strip(name) && d.gender == Strip(gender)
      ensures d.personality == Strip(personality) && d.experience == Strip(experience)
    {
      Trimmed(Character(name, gender, personality, experience))
    }
  }
}
