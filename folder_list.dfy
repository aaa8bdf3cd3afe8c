/** Lookup and upsert by id on the folder list, as values: the reference
    definitions that `getFolderById` and `updateFolder` are proved against. */
module FolderList {
  import opened Wrappers
  import opened Codec

  /** The index of the first folder whose id equals `id`, if any.
      Java's `existing.getUniqueId().equals(id)` is `fs[k].id == id` here:
      a `null` query matches no folder with an id. */
  function FindFirst(fs: seq<FolderRec>, id: Option<string>): (r: Option<nat>)
    ensures r.Some? ==> r.value < |fs| && fs[r.value].id == id
    ensures r.Some? ==> forall k :: 0 <= k < r.value ==> fs[k].id != id
    ensures r.None? <==> forall k :: 0 <= k < |fs| ==> fs[k].id != id
  {
    if fs == [] then None
    else if fs[0].id == id then Some(0)
    else match FindFirst(fs[1..], id)
      case None => None
      case Some(k) => Some(k + 1)
  }

  /** The index FindFirst reports is the one a forward scan stops at. */
  lemma FindFirstAt(fs: seq<FolderRec>, id: Option<string>, i: nat)
    requires i < |fs| && fs[i].id == id
    requires forall k :: 0 <= k < i ==> fs[k].id != id
    ensures FindFirst(fs, id) == Some(i)
  {
  }

  /** Insert-or-replace by id: the first folder with `f`'s id gives way to
      `f`; with no such folder, `f` goes at the end. */
  function Upsert(fs: seq<FolderRec>, f: FolderRec): (r: seq<FolderRec>)
    ensures |fs| <= |r| <= |fs| + 1
    ensures f in r
    ensures forall k :: 0 <= k < |r| ==> r[k] == f || r[k] in fs
  {
    if fs == [] then [f]
    else if fs[0].id == f.id then [f] + fs[1..]
    else [fs[0]] + Upsert(fs[1..], f)
  }

  /** Replace in place: the first match is overwritten at its own index;
      the length and every other position stay as they were. */
  lemma UpsertReplacesFirstMatch(fs: seq<FolderRec>, f: FolderRec, i: nat)
    requires FindFirst(fs, f.id) == Some(i)
    ensures Upsert(fs, f) == fs[i := f]
    ensures |Upsert(fs, f)| == |fs| && Upsert(fs, f)[i] == f
    ensures forall k :: 0 <= k < |fs| && k != i ==> Upsert(fs, f)[k] == fs[k]
  {
    UpsertAt(fs, f, i);
  }

  lemma {:induction false} UpsertAt(fs: seq<FolderRec>, f: FolderRec, i: nat)
    requires FindFirst(fs, f.id) == Some(i)
    ensures Upsert(fs, f) == fs[i := f]
  {
    if fs[0].id != f.id {
      UpsertAt(fs[1..], f, i - 1);
      assert [fs[0]] + fs[1..][i - 1 := f] == fs[i := f];
    }
  }

  /** Append: with no folder of `f`'s id, `f` is added at the end and the
      earlier folders are unchanged. */
  lemma {:induction false} UpsertAppendsWhenAbsent(fs: seq<FolderRec>, f: FolderRec)
    requires FindFirst(fs, f.id).None?
    ensures Upsert(fs, f) == fs + [f]
  {
    if fs != [] {
      UpsertAppendsWhenAbsent(fs[1..], f);
      assert [fs[0]] + (fs[1..] + [f]) == fs + [f];
    }
  }

  /** A second upsert with the same id overwrites the first one's folder. */
  lemma {:induction false} UpsertOverwrites(fs: seq<FolderRec>, g: FolderRec, f: FolderRec)
    requires g.id == f.id
    ensures Upsert(Upsert(fs, g), f) == Upsert(fs, f)
  {
    if fs != [] && fs[0].id != f.id {
      UpsertOverwrites(fs[1..], g, f);
    }
  }

  /** Idempotence. */
  lemma UpsertIdempotent(fs: seq<FolderRec>, f: FolderRec)
    ensures Upsert(Upsert(fs, f), f) == Upsert(fs, f)
  {
    UpsertOverwrites(fs, f, f);
  }

  /** Folders of other ids survive an upsert. */
  lemma {:induction false} UpsertKeepsOthers(fs: seq<FolderRec>, f: FolderRec, g: FolderRec)
    requires g in fs && g.id != f.id
    ensures g in Upsert(fs, f)
  {
    if fs[0] != g {
      assert g in fs[1..];
      if fs[0].id == f.id {
        assert Upsert(fs, f) == [f] + fs[1..];
      } else {
        UpsertKeepsOthers(fs[1..], f, g);
        assert Upsert(fs, f) == [fs[0]] + Upsert(fs[1..], f);
      }
    }
  }

  /** Upsert then lookup: the first folder with `f`'s id is `f` itself. */
  lemma {:induction false} UpsertThenFind(fs: seq<FolderRec>, f: FolderRec)
    ensures FindFirst(Upsert(fs, f), f.id).Some?
    ensures Upsert(fs, f)[FindFirst(Upsert(fs, f), f.id).value] == f
  {
    if fs != [] && fs[0].id != f.id {
      UpsertThenFind(fs[1..], f);
    }
  }

  /** Re-stamping keeps ids, so it keeps every lookup. */
  lemma {:induction false} FindFirstRestamped(fs: seq<FolderRec>, id: Option<string>, stamp: string)
    ensures FindFirst(RestampAll(fs, stamp), id) == FindFirst(fs, id)
  {
    if fs != [] {
      assert RestampAll(fs, stamp)[1..] == RestampAll(fs[1..], stamp);
      FindFirstRestamped(fs[1..], id, stamp);
    }
  }

  /** Re-stamping a list and upserting into it commute. */
  lemma {:induction false} RestampUpsert(fs: seq<FolderRec>, f: FolderRec, stamp: string)
    ensures RestampAll(Upsert(fs, f), stamp) == Upsert(RestampAll(fs, stamp), Restamp(f, stamp))
  {
    if fs != [] {
      assert RestampAll(fs, stamp) == [Restamp(fs[0], stamp)] + RestampAll(fs[1..], stamp);
      if fs[0].id == f.id {
        assert RestampAll([f] + fs[1..], stamp) == [Restamp(f, stamp)] + RestampAll(fs[1..], stamp);
      } else {
        RestampUpsert(fs[1..], f, stamp);
        assert RestampAll([fs[0]] + Upsert(fs[1..], f), stamp)
            == [Restamp(fs[0], stamp)] + RestampAll(Upsert(fs[1..], f), stamp);
      }
    }
  }

  /** A list whose timestamps are all `stamp` is its own re-stamping. */
  lemma RestampStamped(fs: seq<FolderRec>, stamp: string)
    requires AllStamped(fs, stamp)
    ensures RestampAll(fs, stamp) == fs
  {
    forall k | 0 <= k < |fs|
      ensures RestampAll(fs, stamp)[k] == fs[k]
    {
      RestampUnique(fs[k], fs[k], stamp);
    }
  }

  /** Re-stamping twice is re-stamping with the later clock. */
  lemma RestampTwice(fs: seq<FolderRec>, s1: string, s2: string)
    ensures RestampAll(RestampAll(fs, s1), s2) == RestampAll(fs, s2)
  {
    forall k | 0 <= k < |fs|
      ensures RestampAll(RestampAll(fs, s1), s2)[k] == RestampAll(fs, s2)[k]
    {
      RestampUnique(fs[k], Restamp(Restamp(fs[k], s1), s2), s2);
    }
  }
}
