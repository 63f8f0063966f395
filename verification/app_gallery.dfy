/**
 * Photo selection in src/App.jsx and src/App.tsx: stepping through the
 * collection (`navigateImage`, the lightbox and, in src/App.tsx, the arrow
 * keys), removing a photo (`handleRemoveImage`) and the selected photo,
 * found by id or else by index.
 */
module AppGallery {
  import opened Wrappers
  import opened Exif

  /** One step forward or back, wrapping around a collection of `n` photos. */
  function Step(i: nat, n: nat, forward: bool): (r: nat)
    requires n > 0
    ensures r < n
    ensures i < n && forward ==> r == if i == n - 1 then 0 else i + 1
    ensures i < n && !forward ==> r == if i == 0 then n - 1 else i - 1
  {
    if forward then
      WrapOnce(i + 1, n);
      (i + 1) % n
    else
      WrapOnce(i - 1 + n, n);
      (i - 1 + n) % n
  }

  /** `%` on the values one wrap-around step can produce. */
  lemma WrapOnce(a: int, n: int)
    requires n > 0
    ensures 0 <= a < n ==> a % n == a
    ensures n <= a < 2 * n ==> a % n == a - n
  {
    QuotientBounds(a / n, n);
    assert a == (a / n) * n + a % n;
  }

  lemma QuotientBounds(q: int, n: int)
    requires n > 0
    ensures q <= -1 ==> q * n <= -n
    ensures q >= 2 ==> q * n >= 2 * n
  {
  }

  /** A step back undoes a step forward, and the other way round. */
  lemma StepInverse(i: nat, n: nat)
    requires i < n
    ensures Step(Step(i, n, true), n, false) == i
    ensures Step(Step(i, n, false), n, true) == i
  {
  }

  /** The photos without the one whose id is `id`, in their order. */
  function Without(images: seq<Photo>, id: string): (r: seq<Photo>)
    ensures |r| <= |images|
  {
    if images == [] then []
    else if images[0].id == id then Without(images[1..], id)
    else [images[0]] + Without(images[1..], id)
  }

  /** A collection without the id passes the filter unchanged. */
  lemma {:induction false} WithoutAbsent(images: seq<Photo>, id: string)
    requires forall i :: 0 <= i < |images| ==> images[i].id != id
    ensures Without(images, id) == images
    decreases |images|
  {
    if images != [] {
      WithoutAbsent(images[1..], id);
      assert images == [images[0]] + images[1..];
    }
  }

  /** The filter keeps exactly the photos with another id. */
  lemma {:induction false} WithoutMembers(images: seq<Photo>, id: string)
    ensures forall p :: p in Without(images, id) <==> p in images && p.id != id
    decreases |images|
  {
    if images != [] {
      WithoutMembers(images[1..], id);
      assert images == [images[0]] + images[1..];
    }
  }

  predicate UniqueIds(images: seq<Photo>)
  {
    forall i, j :: 0 <= i < j < |images| ==> images[i].id != images[j].id
  }

  /** Removing one photo of a collection with distinct ids takes out exactly that photo. */
  lemma WithoutOne(images: seq<Photo>, k: nat)
    requires UniqueIds(images) && k < |images|
    ensures Without(images, images[k].id) == images[..k] + images[k + 1..]
  {
    var id, before, mid, after := images[k].id, images[..k], [images[k]], images[k + 1..];
    SplitAround(images, k);
    WithoutAppend(before, mid + after, id);
    WithoutAppend(mid, after, id);
    WithoutMatching(images[k]);
    OthersKept(images, k);
    assert [] + after == after;
  }

  lemma SplitAround(images: seq<Photo>, k: nat)
    requires k < |images|
    ensures images == images[..k] + ([images[k]] + images[k + 1..])
  {
    assert images[k..] == [images[k]] + images[k + 1..];
    assert images == images[..k] + images[k..];
  }

  lemma WithoutMatching(p: Photo)
    ensures Without([p], p.id) == []
  {
    assert [p][1..] == [];
  }

  /** With distinct ids, the photos before and after photo `k` all pass the filter for its id. */
  lemma OthersKept(images: seq<Photo>, k: nat)
    requires UniqueIds(images) && k < |images|
    ensures Without(images[..k], images[k].id) == images[..k]
    ensures Without(images[k + 1..], images[k].id) == images[k + 1..]
  {
    var id, before, after := images[k].id, images[..k], images[k + 1..];
    forall j | 0 <= j < |before| ensures before[j].id != id {
      assert before[j] == images[j];
    }
    forall j | 0 <= j < |after| ensures after[j].id != id {
      assert after[j] == images[k + 1 + j];
    }
    WithoutAbsent(before, id);
    WithoutAbsent(after, id);
  }

  /** The filter works photo by photo: it distributes over concatenation. */
  lemma {:induction false} WithoutAppend(a: seq<Photo>, b: seq<Photo>, id: string)
    ensures Without(a + b, id) == Without(a, id) + Without(b, id)
    decreases |a|
  {
    if a != [] {
      assert (a + b)[1..] == a[1..] + b;
      WithoutAppend(a[1..], b, id);
    } else {
      assert a + b == b;
    }
  }

  /** With distinct ids, removing the first photo's id leaves the rest. */
  lemma WithoutFirst(images: seq<Photo>)
    requires UniqueIds(images) && images != []
    ensures Without(images, images[0].id) == images[1..]
  {
    var tail := images[1..];
    forall j | 0 <= j < |tail| ensures tail[j].id != images[0].id {
      assert tail[j] == images[j + 1];
    }
    WithoutAbsent(tail, images[0].id);
    assert Without(images, images[0].id) == Without(tail, images[0].id);
  }

  lemma TailUnique(images: seq<Photo>)
    requires UniqueIds(images) && images != []
    ensures UniqueIds(images[1..])
  {
    var tail := images[1..];
    forall i, j | 0 <= i < j < |tail| ensures tail[i].id != tail[j].id {
      assert tail[i] == images[i + 1] && tail[j] == images[j + 1];
    }
  }

  lemma HeadNotInTail(images: seq<Photo>)
    requires UniqueIds(images) && images != []
    ensures forall p :: p in images[1..] ==> p.id != images[0].id
  {
    forall p | p in images[1..] ensures p.id != images[0].id {
      var j :| 0 <= j < |images[1..]| && images[1..][j] == p;
      assert images[1..][j] == images[j + 1];
    }
  }

  /** Index of the first photo with id `id`, as `findIndex`. */
  function FindIndex(images: seq<Photo>, id: string): (r: Option<nat>)
    ensures r.None? <==> forall p :: p in images ==> p.id != id
    ensures r.Some? ==> r.value < |images| && images[r.value].id == id &&
                        forall j :: 0 <= j < r.value ==> images[j].id != id
  {
    if images == [] then None
    else if images[0].id == id then Some(0)
    else match FindIndex(images[1..], id)
      case None => None
      case Some(j) => Some(j + 1)
  }

  datatype ArrowKey = ArrowLeft | ArrowRight | OtherKey

  class Gallery {
    var images: seq<Photo>
    var selectedId: Option<string>
    var currentIndex: nat
    var lightboxIndex: nat

    ghost predicate Valid()
      reads this
    {
      UniqueIds(images)
    }

    /** The photo shown: the one with the selected id, else the one at the current index. */
    function Selected(): (r: Option<Photo>)
      reads this
      ensures r.Some? ==> r.value in images
      ensures selectedId.Some? && (exists p :: p in images && p.id == selectedId.value) ==>
        r.Some? && r.value.id == selectedId.value
    {
      var byId := if selectedId.None? then None else FindIndex(images, selectedId.value);
      if byId.Some? then Some(images[byId.value])
      else if currentIndex < |images| then Some(images[currentIndex])
      else None
    }

    constructor (photos: seq<Photo>)
      requires UniqueIds(photos)
      ensures Valid() && images == photos && selectedId.None? && currentIndex == 0 && lightboxIndex == 0
    {
      images, selectedId, currentIndex, lightboxIndex := photos, None, 0, 0;
    }

    /** `navigateImage`: step the current index, wrapping; nothing when there are no photos. */
    method Navigate(forward: bool)
      requires Valid()
      modifies this
      ensures Valid() && images == old(images) && lightboxIndex == old(lightboxIndex)
      ensures |images| == 0 ==> selectedId == old(selectedId) && currentIndex == old(currentIndex)
      ensures |images| > 0 ==> currentIndex == Step(old(currentIndex), |images|, forward) &&
                               selectedId == Some(images[currentIndex].id) &&
                               Selected() == Some(images[currentIndex])
    {
      if |images| == 0 {
        return;
      }
      var newIndex := Step(currentIndex, |images|, forward);
      currentIndex := newIndex;
      selectedId := Some(images[newIndex].id);
      SelectedAt(newIndex);
    }

    lemma SelectedAt(k: nat)
      requires Valid() && k < |images| && selectedId == Some(images[k].id)
      ensures Selected() == Some(images[k])
    {
      var j := FindIndex(images, images[k].id);
      assert j.Some?;
      assert j.value == k;
    }

    /** The arrow keys of src/App.tsx: ignored in map mode, while typing, or without photos. */
    method PressArrow(key: ArrowKey, mapMode: bool, typing: bool)
      requires Valid()
      modifies this
      ensures Valid() && images == old(images) && lightboxIndex == old(lightboxIndex)
      ensures mapMode || typing || |images| == 0 || key == OtherKey ==>
        selectedId == old(selectedId) && currentIndex == old(currentIndex)
      ensures !mapMode && !typing && |images| > 0 && key != OtherKey ==>
        currentIndex == Step(old(currentIndex), |images|, key == ArrowRight) &&
        selectedId == Some(images[currentIndex].id)
    {
      if mapMode || |images| == 0 || typing {
        return;
      }
      if key == ArrowLeft {
        Navigate(false);
      } else if key == ArrowRight {
        Navigate(true);
      }
    }

    /**
     * `handleLightboxNavigate`: jump to photo `i` or step the lightbox index,
     * making that photo the current one. The source reads the id of the photo
     * at the new index, so it needs a photo to be there.
     */
    method LightboxJump(i: nat)
      requires Valid() && i < |images|
      modifies this
      ensures Valid() && images == old(images)
      ensures lightboxIndex == i && currentIndex == i && selectedId == Some(images[i].id)
      ensures Selected() == Some(images[i])
    {
      lightboxIndex := i;
      selectedId := Some(images[i].id);
      currentIndex := i;
      SelectedAt(i);
    }

    method LightboxStep(forward: bool)
      requires Valid() && |images| > 0
      modifies this
      ensures Valid() && images == old(images)
      ensures lightboxIndex == Step(old(lightboxIndex), |images|, forward)
      ensures currentIndex == lightboxIndex && selectedId == Some(images[lightboxIndex].id)
      ensures Selected() == Some(images[lightboxIndex])
    {
      var newIndex := Step(lightboxIndex, |images|, forward);
      lightboxIndex := newIndex;
      selectedId := Some(images[newIndex].id);
      currentIndex := newIndex;
      SelectedAt(newIndex);
    }

    /**
     * `handleRemoveImage`: drop the photo with this id. Removing the selected
     * photo selects the one now at `min(currentIndex, length - 1)`, or nothing
     * when none is left; removing another photo keeps the selection.
     */
    method Remove(id: string)
      requires Valid()
      modifies this
      ensures Valid() && images == Without(old(images), id) && lightboxIndex == old(lightboxIndex)
      ensures old(selectedId) != Some(id) ==> selectedId == old(selectedId) && currentIndex == old(currentIndex)
      ensures old(selectedId) == Some(id) && |images| > 0 ==>
        currentIndex == (if old(currentIndex) <= |images| - 1 then old(currentIndex) else |images| - 1) &&
        selectedId == Some(images[currentIndex].id) && Selected() == Some(images[currentIndex])
      ensures old(selectedId) == Some(id) && |images| == 0 ==> selectedId.None? && currentIndex == 0
    {
      var newImages := Without(images, id);
      WithoutKeepsUnique(images, id);
      images := newImages;
      if selectedId == Some(id) {
        if |newImages| > 0 {
          var newIndex := if currentIndex <= |newImages| - 1 then currentIndex else |newImages| - 1;
          selectedId := Some(newImages[newIndex].id);
          currentIndex := newIndex;
          SelectedAt(newIndex);
        } else {
          selectedId := None;
          currentIndex := 0;
        }
      }
    }
  }

  lemma {:induction false} WithoutKeepsUnique(images: seq<Photo>, id: string)
    requires UniqueIds(images)
    ensures UniqueIds(Without(images, id))
    decreases |images|
  {
    if images != [] {
      TailUnique(images);
      WithoutKeepsUnique(images[1..], id);
      if images[0].id != id {
        HeadNotInTail(images);
        WithoutMembers(images[1..], id);
      }
    }
  }

  /** Removing a photo other than the selected one leaves the shown photo as it was. */
  method RemoveOther(g: Gallery, id: string)
    requires g.Valid() && g.selectedId.Some? && g.selectedId != Some(id)
    requires exists p :: p in g.images && p.id == g.selectedId.value
    modifies g
    ensures g.Valid() && g.Selected() == old(g.Selected())
  {
    var k :| 0 <= k < |g.images| && g.images[k].id == g.selectedId.value;
    var shown := g.images[k];
    var before := g.images;
    g.SelectedAt(k);
    g.Remove(id);
    WithoutMembers(before, id);
    assert shown in g.images;
    var k' :| 0 <= k' < |g.images| && g.images[k'] == shown;
    g.SelectedAt(k');
  }
}
