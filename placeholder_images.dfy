/** src/lib/placeholder-images.ts: lookup of the placeholder images listed
    in the bundled data, with a fixed fallback. */
module PlaceholderImages {
  import opened Common

  /** `ImagePlaceholder` */
  datatype ImagePlaceholder = ImagePlaceholder(id: string, description: string, imageUrl: string, imageHint: string)

  /** `new Map(list.map(img => [img.id, img]))`: entries inserted in list
      order, so a later entry with the same id replaces an earlier one. */
  function BuildImageMap(images: seq<ImagePlaceholder>): (m: map<string, ImagePlaceholder>)
    ensures forall id | id in m :: m[id].id == id
    decreases |images|
  {
    if |images| == 0 then map[]
    else BuildImageMap(images[..|images| - 1])[images[|images| - 1].id := images[|images| - 1]]
  }

  /** The ids listed. */
  ghost function Ids(images: seq<ImagePlaceholder>): set<string> {
    set i | 0 <= i < |images| :: images[i].id
  }

  lemma IdsSnoc(images: seq<ImagePlaceholder>)
    requires |images| > 0
    ensures Ids(images) == Ids(images[..|images| - 1]) + {images[|images| - 1].id}
  {
    var init := images[..|images| - 1];
    forall id | id in Ids(init) ensures id in Ids(images) {
      var i :| 0 <= i < |init| && init[i].id == id;
      assert images[i].id == id;
    }
    forall id | id in Ids(images) ensures id in Ids(init) + {images[|images| - 1].id} {
      var i :| 0 <= i < |images| && images[i].id == id;
      if i < |init| { assert init[i].id == id; }
    }
  }

  /** `i` is the position of the last entry listed with `id`. */
  ghost predicate LastWith(images: seq<ImagePlaceholder>, id: string, i: int) {
    0 <= i < |images| && images[i].id == id && forall j | i < j < |images| :: images[j].id != id
  }

  /** The map holds exactly the listed ids. */
  lemma {:induction false} ImageMapKeys(images: seq<ImagePlaceholder>)
    ensures BuildImageMap(images).Keys == Ids(images)
    decreases |images|
  {
    if |images| > 0 {
      ImageMapKeys(images[..|images| - 1]);
      IdsSnoc(images);
    }
  }

  /** Each id maps to the last entry listed with it. */
  lemma {:induction false} ImageMapLast(images: seq<ImagePlaceholder>)
    ensures forall id | id in BuildImageMap(images) ::
      exists i :: LastWith(images, id, i) && BuildImageMap(images)[id] == images[i]
    decreases |images|
  {
    if |images| > 0 {
      var init := images[..|images| - 1];
      var last := images[|images| - 1];
      ImageMapLast(init);
      var m := BuildImageMap(images);
      assert m == BuildImageMap(init)[last.id := last];
      forall id | id in m ensures exists i :: LastWith(images, id, i) && m[id] == images[i] {
        if id == last.id {
          assert LastWith(images, id, |images| - 1);
        } else {
          var i :| LastWith(init, id, i) && BuildImageMap(init)[id] == init[i];
          assert images[i] == init[i];
          assert LastWith(images, id, i);
        }
      }
    }
  }

  const Fallback := ImagePlaceholder("not-found", "Image not found",
    "https://placehold.co/600x400/EEE/31343C?text=Image+Not+Found", "placeholder")

  /** `getPlaceholderImage`: the entry with that id, else the fallback. It
      never fails. */
  function GetPlaceholderImage(images: seq<ImagePlaceholder>, id: string): (img: ImagePlaceholder)
    ensures id in BuildImageMap(images) ==> img == BuildImageMap(images)[id]
    ensures id !in BuildImageMap(images) ==> img == Fallback
  {
    var m := BuildImageMap(images);
    if id in m then m[id] else Fallback
  }

  /** A listed id gives back an entry with that id (the last one listed); an
      unlisted id gives the fallback, whose id is "not-found" and whose hint
      is "placeholder". */
  lemma LookupSpec(images: seq<ImagePlaceholder>, id: string)
    ensures id in Ids(images) ==>
      && GetPlaceholderImage(images, id).id == id
      && exists i :: LastWith(images, id, i) && GetPlaceholderImage(images, id) == images[i]
    ensures id !in Ids(images) ==>
      GetPlaceholderImage(images, id) == Fallback && Fallback.id == "not-found" && Fallback.imageHint == "placeholder"
  {
    ImageMapKeys(images);
    ImageMapLast(images);
  }
}
