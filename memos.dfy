/**
 * The memo screen's view model: a qualification's memos newest first, the
 * images attached to a memo in the order they were picked, and the cascade
 * that deletes a memo with its images.
 *
 * A picked image is an `Option<Bytes>`: `None` stands for an image whose
 * JPEG conversion failed, which is skipped but still uses up its index.
 */
module Memos {
  import opened Prelude
  import opened Calendar
  import opened Models
  import opened Persistence

  /** The sort key of `load(for:)`: `createdAt`, reversed. */
  function Newness(m: Memo): int {
    -m.createdAt
  }

  /** The sort key of `imagesForMemo`. */
  function Order(i: MemoImage): int {
    i.order
  }

  /** The memos listed by `load(for:)`: exactly the given ones, newest first. */
  function NewestFirst(ms: seq<Memo>): (r: seq<Memo>)
    ensures forall i, j :: 0 <= i < j < |r| ==> r[i].createdAt >= r[j].createdAt
    ensures multiset(r) == multiset(ms)
    ensures forall m :: m in r <==> m in ms
  {
    var r := SortBy(ms, Newness);
    assert forall i, j :: 0 <= i < j < |r| ==> Newness(r[i]) <= Newness(r[j]);
    assert forall m :: m in r <==> m in ms by {
      forall m ensures m in r <==> m in ms {
        assert m in r <==> m in multiset(r);
      }
    }
    r
  }

  /** The images of memo `memoId`, in ascending `order`. */
  function ImagesOf(images: seq<MemoImage>, memoId: Id): (r: seq<MemoImage>)
    ensures SortedBy(r, Order)
    ensures multiset(r) == multiset(Filter(images, (i: MemoImage) => i.memoId == memoId))
  {
    SortBy(Filter(images, (i: MemoImage) => i.memoId == memoId), Order)
  }

  /** `map(\.imageData)`. */
  function DataOf(images: seq<MemoImage>): (r: seq<Bytes>)
    ensures |r| == |images|
    ensures forall k :: 0 <= k < |images| ==> r[k] == images[k].imageData
  {
    seq(|images|, k requires 0 <= k < |images| => images[k].imageData)
  }

  /** Each stored image as its (order, data) pair. */
  function Stored(images: seq<MemoImage>): (r: seq<(int, Bytes)>)
    ensures |r| == |images|
    ensures forall k :: 0 <= k < |images| ==> r[k] == (images[k].order, images[k].imageData)
  {
    seq(|images|, k requires 0 <= k < |images| => (images[k].order, images[k].imageData))
  }

  /** The (index, data) pairs of the picked images that converted, in picking order. */
  function Payloads(picked: seq<Option<Bytes>>): seq<(int, Bytes)> {
    if picked == [] then []
    else
      var last := picked[|picked| - 1];
      Payloads(picked[..|picked| - 1]) + (if last.Some? then [(|picked| - 1, last.value)] else [])
  }

  lemma StoredAppend(images: seq<MemoImage>, image: MemoImage)
    ensures Stored(images + [image]) == Stored(images) + [(image.order, image.imageData)]
  {
  }

  lemma PayloadsStep(picked: seq<Option<Bytes>>, i: nat)
    requires i < |picked|
    ensures Payloads(picked[..i + 1]) == Payloads(picked[..i]) + (if picked[i].Some? then [(i, picked[i].value)] else [])
  {
    assert picked[..i + 1][..i] == picked[..i];
  }

  /** The data of the picked images that converted, in picking order. */
  function Converted(picked: seq<Option<Bytes>>): seq<Bytes> {
    if picked == [] then []
    else
      var last := picked[|picked| - 1];
      Converted(picked[..|picked| - 1]) + (if last.Some? then [last.value] else [])
  }

  /**
   * The payload indices are positions in the picked list and strictly
   * increase; dropping them leaves the converted data.
   */
  lemma {:induction false} PayloadsOrdered(picked: seq<Option<Bytes>>)
    ensures var p := Payloads(picked);
      && (forall k :: 0 <= k < |p| ==> 0 <= p[k].0 < |picked| && picked[p[k].0] == Some(p[k].1))
      && (forall j, k :: 0 <= j < k < |p| ==> p[j].0 < p[k].0)
      && |p| == |Converted(picked)|
      && (forall k :: 0 <= k < |p| ==> p[k].1 == Converted(picked)[k])
  {
    if picked != [] {
      var init := picked[..|picked| - 1];
      PayloadsOrdered(init);
      assert forall k :: 0 <= k < |init| ==> picked[k] == init[k];
    }
  }

  /**
   * Images stored with the payloads of a picked list, once read back in
   * ascending order, give exactly the converted data in picking order.
   */
  lemma ReadBack(added: seq<MemoImage>, picked: seq<Option<Bytes>>)
    requires Stored(added) == Payloads(picked)
    ensures SortBy(added, Order) == added
    ensures DataOf(added) == Converted(picked)
  {
    PayloadsOrdered(picked);
    assert forall k :: 0 <= k < |added| ==> Stored(added)[k] == (added[k].order, added[k].imageData);
    assert SortedBy(added, Order) by {
      forall j, k | 0 <= j < k < |added| ensures Order(added[j]) <= Order(added[k]) {
        assert Payloads(picked)[j].0 < Payloads(picked)[k].0;
      }
    }
    SortBySorted(added, Order);
  }

  /**
   * Images appended for a memo that had none read back as the converted
   * data of the picked list, in picking order.
   */
  lemma AddedImagesReadBack(before: seq<MemoImage>, added: seq<MemoImage>, memoId: Id, picked: seq<Option<Bytes>>)
    requires forall x :: x in before ==> x.memoId != memoId
    requires forall x :: x in added ==> x.memoId == memoId
    requires Stored(added) == Payloads(picked)
    ensures DataOf(ImagesOf(before + added, memoId)) == Converted(picked)
  {
    FilterAppend(before, added, (i: MemoImage) => i.memoId == memoId);
    FilterNone(before, (i: MemoImage) => i.memoId == memoId);
    FilterAll(added, (i: MemoImage) => i.memoId == memoId);
    assert Filter(before + added, (i: MemoImage) => i.memoId == memoId) == added;
    ReadBack(added, picked);
  }

  /** Deleting a memo's images leaves every other memo's images as they were. */
  lemma DeleteKeepsOtherImages(images: seq<MemoImage>, gone: Id, other: Id)
    requires gone != other
    ensures ImagesOf(Filter(images, (i: MemoImage) => i.memoId != gone), other) == ImagesOf(images, other)
  {
    FilterFilterSame(images, (i: MemoImage) => i.memoId != gone, (i: MemoImage) => i.memoId == other,
                     (i: MemoImage) => i.memoId == other);
  }

  class MemoViewModel {
    const store: Store
    /** `memos`, as the last `load(for:)` left it. */
    var memos: seq<Memo>

    constructor (store: Store)
      ensures this.store == store && memos == []
    {
      this.store := store;
      memos := [];
    }

    /** `load(for:)`: nothing without a qualification, otherwise its memos newest first. */
    method Load(qualificationId: Option<Id>)
      modifies this`memos
      ensures qualificationId.None? ==> memos == []
      ensures qualificationId.Some? ==> memos == NewestFirst(MemosOf(store.memos, qualificationId.value))
      ensures forall m :: m in memos <==> qualificationId.Some? && m in store.memos && m.qualificationId == qualificationId.value
    {
      if qualificationId.None? {
        memos := [];
        return;
      }
      memos := NewestFirst(MemosOf(store.memos, qualificationId.value));
    }

    /**
     * `addMemo`: stores one new memo and, for each picked image that
     * converts, one image of that memo whose order is the image's index in
     * the picked list; reading the memo's images back gives the converted
     * data in picking order.
     */
    method AddMemo(qualificationId: Id, materialId: Option<Id>, content: string, picked: seq<Option<Bytes>>, now: Instant)
      requires store.Valid()
      modifies this`memos, store`memos, store`images, store`nextId
      ensures store.Valid()
      ensures var memo := Memo(old(store.nextId), qualificationId, materialId, content, now);
        && store.memos == old(store.memos) + [memo]
        && |old(store.images)| <= |store.images|
        && store.images[..|old(store.images)|] == old(store.images)
        && Stored(store.images[|old(store.images)|..]) == Payloads(picked)
        && (forall i :: i in store.images[|old(store.images)|..] ==> i.memoId == memo.id && i.createdAt == now)
        && DataOf(ImagesOf(store.images, memo.id)) == Converted(picked)
        && memo in memos
    {
      ghost var I0 := store.images;
      var id := store.FreshId();
      var memo := Memo(id, qualificationId, materialId, content, now);
      store.memos := store.memos + [memo];
      AttachImages(memo.id, picked, now);
      ghost var added := store.images[|I0|..];
      assert store.images == I0 + added;
      AddedImagesReadBack(I0, added, memo.id, picked);
      assert memo in store.memos;
      Load(Some(qualificationId));
    }

    /** The loop of `addMemo`: one image of memo `memoId` per picked image that converts, ordered by its index. */
    method AttachImages(memoId: Id, picked: seq<Option<Bytes>>, now: Instant)
      requires store.Valid() && memoId < store.nextId
      modifies store`images, store`nextId
      ensures store.Valid()
      ensures |old(store.images)| <= |store.images|
      ensures store.images[..|old(store.images)|] == old(store.images)
      ensures Stored(store.images[|old(store.images)|..]) == Payloads(picked)
      ensures forall i :: i in store.images[|old(store.images)|..] ==> i.memoId == memoId && i.createdAt == now
    {
      ghost var I0 := store.images;
      ghost var added: seq<MemoImage> := [];
      var i := 0;
      while i < |picked|
        invariant 0 <= i <= |picked|
        invariant store.Valid() && memoId < store.nextId
        invariant store.images == I0 + added
        invariant Stored(added) == Payloads(picked[..i])
        invariant forall x :: x in added ==> x.memoId == memoId && x.createdAt == now
      {
        PayloadsStep(picked, i);
        if picked[i].Some? {
          var imageId := store.FreshId();
          var image := MemoImage(imageId, memoId, picked[i].value, i, now);
          StoredAppend(added, image);
          store.images := store.images + [image];
          added := added + [image];
        }
        i := i + 1;
      }
      assert picked[..i] == picked;
      assert store.images[|I0|..] == added;
      assert store.images[..|I0|] == I0;
    }

    /** `deleteMemo`: removes the memo and every image of it, nothing else, and reloads. */
    method DeleteMemo(memo: Memo)
      requires store.Valid() && memo in store.memos
      modifies this`memos, store`memos, store`images
      ensures store.Valid()
      ensures store.images == Filter(old(store.images), (i: MemoImage) => i.memoId != memo.id)
      ensures store.memos == Filter(old(store.memos), (m: Memo) => m != memo)
      ensures forall m :: m in store.memos <==> m in old(store.memos) && m.id != memo.id
      ensures memos == NewestFirst(MemosOf(store.memos, memo.qualificationId))
      ensures ImagesOf(store.images, memo.id) == []
    {
      store.DeleteMemo(memo);
      FilterFilterSame(old(store.images), (i: MemoImage) => i.memoId != memo.id, (i: MemoImage) => i.memoId == memo.id,
                       (i: MemoImage) => false);
      FilterNone(old(store.images), (i: MemoImage) => false);
      Load(Some(memo.qualificationId));
    }

    /** `imagesForMemo`: the data of every image of the memo, each once, in ascending `order`. */
    function ImagesForMemo(memo: Memo): (r: seq<Bytes>)
      reads store
      ensures r == DataOf(ImagesOf(store.images, memo.id))
      ensures |r| == |Filter(store.images, (i: MemoImage) => i.memoId == memo.id)|
      ensures forall k :: 0 <= k < |r| ==> exists i :: i in store.images && i.memoId == memo.id && i.imageData == r[k]
    {
      var shown := ImagesOf(store.images, memo.id);
      assert |shown| == |multiset(shown)|;
      forall k | 0 <= k < |shown| ensures shown[k] in store.images && shown[k].memoId == memo.id {
        assert shown[k] in multiset(shown);
      }
      DataOf(shown)
    }

    /** `materials(for:)`: none without a qualification, otherwise its materials. */
    function MaterialsFor(qualificationId: Option<Id>): (r: seq<Material>)
      reads store
      ensures qualificationId.None? ==> r == []
      ensures forall m :: m in r <==> qualificationId.Some? && m in store.materials && m.qualificationId == qualificationId.value
    {
      if qualificationId.None? then [] else MaterialsOf(store.materials, qualificationId.value)
    }
  }
}
