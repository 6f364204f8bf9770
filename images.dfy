/**
 * The image list of a product projection (`Products::get_images`): the
 * main image id, then the gallery ids, de-duplicated keeping the first
 * occurrence (`wp_parse_id_list`), and for each id that resolves in the
 * media library one image record, in that order.
 */
module Images {

  /** PHP's `absint`: an id as a non-negative integer. */
  function Absint(x: int): (n: nat)
    ensures n == x || n == -x
  {
    if x < 0 then -x else x
  }

  predicate NoDuplicates(s: seq<nat>)
  {
    forall i, j :: 0 <= i < j < |s| ==> s[i] != s[j]
  }

  /** The first position of `x` in `s`. */
  function IndexOf(s: seq<nat>, x: nat): (i: nat)
    requires x in s
    ensures i < |s| && s[i] == x && x !in s[..i]
  {
    if s[0] == x then 0
    else
      var k := IndexOf(s[1..], x);
      assert s[..k + 1] == [s[0]] + s[1..][..k];
      k + 1
  }

  /** A position holding `x` with no `x` before it is the first position of `x`. */
  lemma IndexOfIsFirst(s: seq<nat>, x: nat, i: nat)
    requires i < |s| && s[i] == x && x !in s[..i]
    ensures IndexOf(s, x) == i
  {
    var k := IndexOf(s, x);
    assert forall m :: 0 <= m < i ==> s[..i][m] == s[m];
    assert forall m :: 0 <= m < k ==> s[..k][m] == s[m];
  }

  /** Appending a value keeps the first positions of the values already present and puts a new value last. */
  lemma IndexOfAppend(s: seq<nat>, z: nat, y: nat)
    requires y in s + [z]
    ensures y in s ==> IndexOf(s + [z], y) == IndexOf(s, y)
    ensures y !in s ==> IndexOf(s + [z], y) == |s|
  {
    var t := s + [z];
    if y in s {
      var k := IndexOf(s, y);
      assert t[..k] == s[..k];
      IndexOfIsFirst(t, y, k);
    } else {
      assert t[..|s|] == s;
      IndexOfIsFirst(t, y, |s|);
    }
  }

  /** PHP's `array_unique` on a list of ids: keeps the first occurrence of each id. */
  function Unique(s: seq<nat>): (r: seq<nat>)
    ensures NoDuplicates(r)
    ensures forall x :: x in r <==> x in s
  {
    if s == [] then []
    else
      var front := Unique(s[..|s| - 1]);
      var last := s[|s| - 1];
      assert s == s[..|s| - 1] + [last];
      if last in front then front else front + [last]
  }

  /** `array_unique` lists the ids in the order of their first occurrences. */
  lemma {:induction false} UniqueOrder(s: seq<nat>)
    ensures forall i, j :: 0 <= i < j < |Unique(s)| ==> IndexOf(s, Unique(s)[i]) < IndexOf(s, Unique(s)[j])
  {
    if s != [] {
      var front := s[..|s| - 1];
      var last := s[|s| - 1];
      assert s == front + [last];
      UniqueOrder(front);
      var r := Unique(s);
      var rf := Unique(front);
      forall i, j | 0 <= i < j < |r|
        ensures IndexOf(s, r[i]) < IndexOf(s, r[j])
      {
        assert rf[i] in rf;
        IndexOfAppend(front, last, r[i]);
        IndexOfAppend(front, last, r[j]);
        if j < |rf| {
          assert rf[j] in rf;
        }
      }
    }
  }

  /**
   * The ids in the order they are gathered: the main image id when it is
   * set (not 0), then the gallery ids, each made non-negative by `absint`.
   */
  function GatheredIds(imageId: int, galleryIds: seq<int>): (ids: seq<nat>)
    ensures |ids| == (if imageId != 0 then 1 else 0) + |galleryIds|
    ensures imageId != 0 ==> ids[0] == Absint(imageId) && ids[1..] == seq(|galleryIds|, k requires 0 <= k < |galleryIds| => Absint(galleryIds[k]))
    ensures imageId == 0 ==> ids == seq(|galleryIds|, k requires 0 <= k < |galleryIds| => Absint(galleryIds[k]))
  {
    var merged := (if imageId != 0 then [imageId] else []) + galleryIds;
    seq(|merged|, k requires 0 <= k < |merged| => Absint(merged[k]))
  }

  /** The attachment ids: the gathered ids with repeats collapsed to their first occurrence. */
  function AttachmentIds(imageId: int, galleryIds: seq<int>): seq<nat>
  {
    Unique(GatheredIds(imageId, galleryIds))
  }

  /** What the media library knows of an attachment whose full-size source resolves. */
  datatype Attachment = Attachment(src: string, thumbnail: string, srcset: string, sizes: string, name: string, alt: string)

  /** One record of the image list. */
  datatype Image = Image(id: nat, src: string, thumbnail: string, srcset: string, sizes: string, name: string, alt: string)

  function ImageOf(id: nat, a: Attachment): Image
  {
    Image(id, a.src, a.thumbnail, a.srcset, a.sizes, a.name, a.alt)
  }

  function ImageIds(images: seq<Image>): seq<nat>
  {
    seq(|images|, k requires 0 <= k < |images| => images[k].id)
  }

  /** The ids of `ids` that resolve in the media library, in order. */
  function Resolved(ids: seq<nat>, library: map<nat, Attachment>): seq<nat>
  {
    if ids == [] then []
    else
      var last := ids[|ids| - 1];
      Resolved(ids[..|ids| - 1], library) + (if last in library then [last] else [])
  }

  /**
   * Resolving keeps exactly the ids the library knows, adds no repeat and
   * keeps the ids in the order of the list it filters.
   */
  lemma {:induction false} ResolvedKeepsOrder(ids: seq<nat>, library: map<nat, Attachment>)
    requires NoDuplicates(ids)
    ensures forall x :: x in Resolved(ids, library) <==> x in ids && x in library
    ensures NoDuplicates(Resolved(ids, library))
    ensures forall i, j :: 0 <= i < j < |Resolved(ids, library)| ==>
              IndexOf(ids, Resolved(ids, library)[i]) < IndexOf(ids, Resolved(ids, library)[j])
  {
    if ids != [] {
      var front := ids[..|ids| - 1];
      var last := ids[|ids| - 1];
      assert ids == front + [last];
      ResolvedKeepsOrder(front, library);
      var r := Resolved(ids, library);
      var rf := Resolved(front, library);
      forall k | 0 <= k < |front|
        ensures front[k] != last
      {
        assert front[k] == ids[k];
      }
      forall i, j | 0 <= i < j < |r|
        ensures IndexOf(ids, r[i]) < IndexOf(ids, r[j])
      {
        assert rf[i] in rf;
        IndexOfAppend(front, last, r[i]);
        IndexOfAppend(front, last, r[j]);
        if j < |rf| {
          assert rf[j] in rf;
        }
      }
    }
  }

  /**
   * The resolved attachment ids have no repeats, are exactly the gathered
   * ids that resolve, and follow the order in which the ids were first
   * gathered.
   */
  lemma ResolvedAttachmentIds(gathered: seq<nat>, library: map<nat, Attachment>)
    ensures var r := Resolved(Unique(gathered), library);
            && NoDuplicates(r)
            && (forall x :: x in r <==> x in gathered && x in library)
            && forall i, j :: 0 <= i < j < |r| ==> IndexOf(gathered, r[i]) < IndexOf(gathered, r[j])
  {
    var ids := Unique(gathered);
    var r := Resolved(ids, library);
    ResolvedKeepsOrder(ids, library);
    UniqueOrder(gathered);
    forall i, j | 0 <= i < j < |r|
      ensures IndexOf(gathered, r[i]) < IndexOf(gathered, r[j])
    {
      var a := IndexOf(ids, r[i]);
      var b := IndexOf(ids, r[j]);
      assert ids[a] == r[i] && ids[b] == r[j];
    }
  }

  /** When the first gathered id resolves, it heads the resolved list. */
  lemma FirstGatheredIdLeads(gathered: seq<nat>, library: map<nat, Attachment>)
    requires |gathered| > 0 && gathered[0] in library
    ensures var r := Resolved(Unique(gathered), library);
            |r| > 0 && r[0] == gathered[0]
  {
    var r := Resolved(Unique(gathered), library);
    ResolvedAttachmentIds(gathered, library);
    assert gathered[0] in r;
    IndexOfIsFirst(gathered, gathered[0], 0);
    forall j | 0 < j < |r|
      ensures r[j] != gathered[0]
    {
      assert IndexOf(gathered, r[0]) < IndexOf(gathered, r[j]);
    }
  }

  /** An image list whose ids are the resolved attachment ids of `gathered` has the image-list properties. */
  lemma ImageListFollowsGatheredIds(images: seq<Image>, gathered: seq<nat>, library: map<nat, Attachment>)
    requires ImageIds(images) == Resolved(Unique(gathered), library)
    ensures forall id :: id in ImageIds(images) <==> id in gathered && id in library
    ensures NoDuplicates(ImageIds(images))
    ensures forall i, j :: 0 <= i < j < |images| ==>
              IndexOf(gathered, ImageIds(images)[i]) < IndexOf(gathered, ImageIds(images)[j])
    ensures |gathered| > 0 && gathered[0] in library ==> |images| > 0 && images[0].id == gathered[0]
  {
    ResolvedAttachmentIds(gathered, library);
    if |gathered| > 0 && gathered[0] in library {
      FirstGatheredIdLeads(gathered, library);
      assert ImageIds(images)[0] == images[0].id;
    }
  }

  /**
   * The image list: one record per attachment id whose full-size source
   * resolves, carrying that attachment's data; no id twice; the main image
   * first when it is set and resolves; and the records in the order the ids
   * were first gathered (main image, then gallery).
   */
  method GetImages(imageId: int, galleryIds: seq<int>, library: map<nat, Attachment>) returns (images: seq<Image>)
    ensures forall k :: 0 <= k < |images| ==>
              images[k].id in library && images[k] == ImageOf(images[k].id, library[images[k].id])
    ensures forall id :: id in ImageIds(images) <==> id in GatheredIds(imageId, galleryIds) && id in library
    ensures NoDuplicates(ImageIds(images))
    ensures forall i, j :: 0 <= i < j < |images| ==>
              IndexOf(GatheredIds(imageId, galleryIds), ImageIds(images)[i]) <
              IndexOf(GatheredIds(imageId, galleryIds), ImageIds(images)[j])
    ensures imageId != 0 && Absint(imageId) in library ==> |images| > 0 && images[0].id == Absint(imageId)
  {
    var ids := AttachmentIds(imageId, galleryIds);
    images := [];
    var k := 0;
    while k < |ids|
      invariant 0 <= k <= |ids|
      invariant ImageIds(images) == Resolved(ids[..k], library)
      invariant forall m :: 0 <= m < |images| ==>
                  images[m].id in library && images[m] == ImageOf(images[m].id, library[images[m].id])
    {
      assert ids[..k + 1][..k] == ids[..k];
      var id := ids[k];
      if id in library {
        var image := ImageOf(id, library[id]);
        assert ImageIds(images + [image]) == ImageIds(images) + [id];
        images := images + [image];
      }
      k := k + 1;
    }
    assert ids[..|ids|] == ids;
    ImageListFollowsGatheredIds(images, GatheredIds(imageId, galleryIds), library);
  }
}
