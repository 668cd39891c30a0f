/** The local image history (`useImageHistory`): a most-recent-first list of
    records, mirrored in full into one browser-storage slot. */
module ImageHistory {
  import opened ApiTypes

  const StorageKey: string := "stable-diffusion-image-history"

  /** What a storage slot holds, as far as loading can tell: the empty string
      (falsy, so ignored), the JSON text of a list of records, or text that does
      not parse. */
  datatype Blob = EmptyText | Json(records: seq<GeneratedImage>) | Malformed

  /** The browser's `localStorage`: slot name to stored text. */
  type Storage = map<string, Blob>

  // ---------------------------------------------------------------------------
  // The list transforms the hook applies

  /** The list without the records that carry `id`, the others kept in order
      (the filter in `removeImage`). */
  function RemoveById(images: seq<GeneratedImage>, id: string): seq<GeneratedImage> {
    if images == [] then []
    else (if images[0].id != id then [images[0]] else []) + RemoveById(images[1..], id)
  }

  /** The filtered list holds every record whose id differs, as many times as the
      original does, and no record carrying `id`. */
  lemma {:induction false} RemoveByIdKeeps(images: seq<GeneratedImage>, id: string)
    ensures |RemoveById(images, id)| <= |images|
    ensures forall x :: x in RemoveById(images, id) <==> x in images && x.id != id
    ensures forall x: GeneratedImage :: x.id != id ==>
              multiset(RemoveById(images, id))[x] == multiset(images)[x]
    ensures forall x: GeneratedImage :: x.id == id ==> multiset(RemoveById(images, id))[x] == 0
  {
    if images != [] {
      RemoveByIdKeeps(images[1..], id);
      assert images == [images[0]] + images[1..];
    }
  }

  /** Filtering distributes over concatenation: the kept records stay in their
      original relative order. */
  lemma {:induction false} RemoveByIdConcat(a: seq<GeneratedImage>, b: seq<GeneratedImage>, id: string)
    ensures RemoveById(a + b, id) == RemoveById(a, id) + RemoveById(b, id)
  {
    if a == [] {
      assert a + b == b;
    } else {
      assert (a + b)[0] == a[0] && (a + b)[1..] == a[1..] + b;
      RemoveByIdConcat(a[1..], b, id);
    }
  }

  /** Removing an id that no record carries changes nothing. */
  lemma {:induction false} RemoveAbsentId(images: seq<GeneratedImage>, id: string)
    requires forall i :: 0 <= i < |images| ==> images[i].id != id
    ensures RemoveById(images, id) == images
  {
    if images != [] {
      RemoveAbsentId(images[1..], id);
    }
  }

  /** Removing the same id twice is the same as removing it once. */
  lemma RemoveIdempotent(images: seq<GeneratedImage>, id: string)
    ensures RemoveById(RemoveById(images, id), id) == RemoveById(images, id)
  {
    var r := RemoveById(images, id);
    RemoveByIdKeeps(images, id);
    forall i | 0 <= i < |r| ensures r[i].id != id {
      assert r[i] in r;
    }
    RemoveAbsentId(r, id);
  }

  /** `images.find(img => img.id === id)`: the first record carrying `id`. */
  function FindById(images: seq<GeneratedImage>, id: string): (r: Option<GeneratedImage>)
    ensures r.None? <==> forall i :: 0 <= i < |images| ==> images[i].id != id
    ensures r.Some? ==> exists k :: 0 <= k < |images| && images[k] == r.value &&
                          images[k].id == id && forall j :: 0 <= j < k ==> images[j].id != id
  {
    if images == [] then None
    else if images[0].id == id then Some(images[0])
    else
      var r := FindById(images[1..], id);
      if r.Some? then
        var k :| 0 <= k < |images| - 1 && images[1..][k] == r.value &&
                 images[1..][k].id == id && forall j :: 0 <= j < k ==> images[1..][j].id != id;
        assert images[k + 1] == r.value;
        assert forall j :: 0 <= j < k + 1 ==> images[j].id != id by {
          forall j | 0 <= j < k + 1 ensures images[j].id != id {
            if j > 0 { assert images[j] == images[1..][j - 1]; }
          }
        }
        r
      else r
  }

  /** The statistics `getStats` returns; timestamps stay epoch milliseconds. */
  datatype Stats = Stats(totalImages: nat, totalSizeEstimate: real,
                         oldestImage: Option<int>, newestImage: Option<int>)

  /** The smallest timestamp in a non-empty list. */
  function OldestTimestamp(images: seq<GeneratedImage>): (t: int)
    requires images != []
    ensures exists i :: 0 <= i < |images| && images[i].timestamp == t
    ensures forall i :: 0 <= i < |images| ==> t <= images[i].timestamp
  {
    if |images| == 1 then images[0].timestamp
    else
      var t := OldestTimestamp(images[1..]);
      assert forall i :: 1 <= i < |images| ==> images[i] == images[1..][i - 1];
      if images[0].timestamp <= t then images[0].timestamp else t
  }

  /** The largest timestamp in a non-empty list. */
  function NewestTimestamp(images: seq<GeneratedImage>): (t: int)
    requires images != []
    ensures exists i :: 0 <= i < |images| && images[i].timestamp == t
    ensures forall i :: 0 <= i < |images| ==> images[i].timestamp <= t
  {
    if |images| == 1 then images[0].timestamp
    else
      var t := NewestTimestamp(images[1..]);
      assert forall i :: 1 <= i < |images| ==> images[i] == images[1..][i - 1];
      if images[0].timestamp >= t then images[0].timestamp else t
  }

  /** `getStats`: count, half a megabyte per record, and the oldest and newest
      timestamps, both absent exactly when the list is empty. */
  function StatsOf(images: seq<GeneratedImage>): (st: Stats)
    ensures st.totalImages == |images|
    ensures st.totalSizeEstimate == |images| as real * 0.5
    ensures st.oldestImage.None? <==> images == []
    ensures st.newestImage.None? <==> images == []
    ensures st.oldestImage.Some? ==>
              (exists i :: 0 <= i < |images| && images[i].timestamp == st.oldestImage.value) &&
              (forall i :: 0 <= i < |images| ==> st.oldestImage.value <= images[i].timestamp)
    ensures st.newestImage.Some? ==>
              (exists i :: 0 <= i < |images| && images[i].timestamp == st.newestImage.value) &&
              (forall i :: 0 <= i < |images| ==> images[i].timestamp <= st.newestImage.value)
    ensures st.oldestImage.Some? && st.newestImage.Some? ==>
              st.oldestImage.value <= st.newestImage.value
  {
    Stats(|images|, |images| as real * 0.5,
          if |images| > 0 then Some(OldestTimestamp(images)) else None,
          if |images| > 0 then Some(NewestTimestamp(images)) else None)
  }

  // ---------------------------------------------------------------------------
  // The load and save effects, as functions of storage

  /** The list after the load effect: a present, non-empty, parseable payload
      replaces `current`; a failed read, a missing slot, an empty text or a parse
      error keep `current`. `readOk` is false when `getItem` itself throws. */
  function LoadedImages(storage: Storage, current: seq<GeneratedImage>, readOk: bool): seq<GeneratedImage> {
    if readOk && StorageKey in storage && storage[StorageKey].Json?
    then storage[StorageKey].records
    else current
  }

  /** Storage after the save effect: while loading nothing is written; otherwise
      the whole list is written under the key, unless the write throws
      (`writeOk` false), which leaves storage as it was. */
  function SavedStorage(storage: Storage, images: seq<GeneratedImage>, loading: bool, writeOk: bool): Storage {
    if !loading && writeOk then storage[StorageKey := Json(images)] else storage
  }

  /** Saving and then loading gives back the very list that was saved, and a save
      touches no other slot. */
  lemma SaveThenLoad(storage: Storage, images: seq<GeneratedImage>, current: seq<GeneratedImage>)
    ensures LoadedImages(SavedStorage(storage, images, false, true), current, true) == images
    ensures forall k :: k != StorageKey ==>
              (k in SavedStorage(storage, images, false, true) <==> k in storage)
    ensures forall k :: k != StorageKey && k in storage ==>
              SavedStorage(storage, images, false, true)[k] == storage[k]
  {
  }

  /** A save attempted while loading, or one whose write fails, leaves storage as
      it was, so the previous history survives. */
  lemma SaveSkipped(storage: Storage, images: seq<GeneratedImage>, loading: bool, writeOk: bool)
    requires loading || !writeOk
    ensures SavedStorage(storage, images, loading, writeOk) == storage
    ensures LoadedImages(SavedStorage(storage, images, loading, writeOk), [], true) ==
            LoadedImages(storage, [], true)
  {
  }

  // ---------------------------------------------------------------------------
  // The hook's state

  /** One instance of the hook: its `images` and `loading` state and the storage
      it reads and writes. */
  class HistoryStore {
    var images: seq<GeneratedImage>
    var loading: bool
    var storage: Storage

    /** Mounting: an empty list, still loading, over the given storage. */
    constructor (storage0: Storage)
      ensures images == [] && loading && storage == storage0
    {
      images := [];
      loading := true;
      storage := storage0;
    }

    /** The load effect; `loading` is false afterwards whatever happened. */
    method LoadEffect(readOk: bool)
      modifies this`images, this`loading
      ensures images == LoadedImages(storage, old(images), readOk)
      ensures !loading
    {
      if readOk && StorageKey in storage && storage[StorageKey].Json? {
        images := storage[StorageKey].records;
      }
      loading := false;
    }

    /** The save effect; write errors are swallowed. */
    method SaveEffect(writeOk: bool)
      modifies this`storage
      ensures storage == SavedStorage(old(storage), images, loading, writeOk)
    {
      if !loading {
        if writeOk {
          storage := storage[StorageKey := Json(images)];
        }
      }
    }

    /** `addImage`: the new record goes in front of all the old ones. */
    method AddImage(image: GeneratedImage)
      modifies this`images
      ensures images == [image] + old(images)
      ensures images[0] == image && images[1..] == old(images)
    {
      images := [image] + images;
    }

    /** `removeImage`: keep exactly the records whose id differs. */
    method RemoveImage(id: string)
      modifies this`images
      ensures images == RemoveById(old(images), id)
    {
      images := RemoveById(images, id);
    }

    /** `clearHistory`. */
    method ClearHistory()
      modifies this`images
      ensures images == [] && StatsOf(images).totalImages == 0
      ensures StatsOf(images).oldestImage.None? && StatsOf(images).newestImage.None?
    {
      images := [];
    }

    /** `getImageById`: the first record carrying `id`; reading it changes nothing. */
    function GetImageById(id: string): (r: Option<GeneratedImage>)
      reads this
      ensures r == FindById(images, id)
      ensures r.Some? ==> r.value in images && r.value.id == id
    {
      FindById(images, id)
    }

    /** `getStats` over the current list. */
    function GetStats(): (st: Stats)
      reads this
      ensures st == StatsOf(images)
      ensures st.totalImages == |images|
    {
      StatsOf(images)
    }
  }

  /** A restart after a save: a save outside loading, then a second instance
      mounted over the same storage and loaded, sees exactly the first instance's
      list, in the same order. */
  method ReopenAfterSave(store: HistoryStore) returns (reopened: HistoryStore)
    requires !store.loading
    modifies store`storage
    ensures fresh(reopened)
    ensures reopened.images == store.images && !reopened.loading
    ensures store.images == old(store.images)
  {
    store.SaveEffect(true);
    reopened := new HistoryStore(store.storage);
    reopened.LoadEffect(true);
  }

  /** Reversal, the order in which a batch ends up when each of its records is
      handed to `addImage` in turn. */
  function Reverse<T>(s: seq<T>): seq<T> {
    if s == [] then [] else [s[|s| - 1]] + Reverse(s[..|s| - 1])
  }

  /** Element `k` of the reversal is element `|s| - 1 - k` of the original. */
  lemma {:induction false} ReverseAt<T>(s: seq<T>, k: nat)
    requires k < |s|
    ensures |Reverse(s)| == |s|
    ensures Reverse(s)[k] == s[|s| - 1 - k]
  {
    ReverseLength(s);
    if k > 0 {
      ReverseAt(s[..|s| - 1], k - 1);
    }
  }

  lemma {:induction false} ReverseLength<T>(s: seq<T>)
    ensures |Reverse(s)| == |s|
  {
    if s != [] {
      ReverseLength(s[..|s| - 1]);
    }
  }
}
