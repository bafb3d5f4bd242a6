/**
 * The resource view: the `resourceBase` query (src/queries.ts) and the two
 * statements built on it, `getResourceQuery` (base + name equality) and
 * `searchResourcesQuery` (base + LIMIT 100).
 *
 * The query is an INNER join of resources with their position-0 images and
 * with the per-resource GROUP_CONCAT of tags, so a resource without a title
 * image or without tags yields no row. SQLite leaves row order and
 * GROUP_CONCAT order unspecified; the model fixes both to table order
 * (resources outermost, then images, tags in table order) and states its
 * properties so that they do not depend on that choice where they can.
 */
module Queries {
  import opened Common
  import opened Text
  import opened Schema

  /** One row of the view, with the public column names. */
  datatype ResourceView = ResourceView(
    name: string,
    title: string,
    description: string,
    contactInfo: string,
    titleImage: string,
    tagList: string)

  /** The separator given to GROUP_CONCAT. */
  const TagSeparator: string := ","

  /** The most rows `searchResourcesQuery` returns. */
  const ListingLimit: nat := 100

  /** The tags of resource `name`, in table order. */
  function TagsOf(tags: seq<ResourceTag>, name: string): seq<string> {
    if tags == [] then []
    else (if tags[0].resourceName == name then [tags[0].tag] else []) + TagsOf(tags[1..], name)
  }

  /** The tags gathered for a resource are exactly its tag rows, duplicates
      kept. */
  lemma {:induction false} TagsOfCount(tags: seq<ResourceTag>, name: string)
    ensures forall tag :: multiset(TagsOf(tags, name))[tag] == multiset(tags)[ResourceTag(name, tag)]
  {
    if tags != [] {
      assert tags == [tags[0]] + tags[1..];
      TagsOfCount(tags[1..], name);
    }
  }

  lemma {:induction false} TagsOfAppend(a: seq<ResourceTag>, b: seq<ResourceTag>, name: string)
    ensures TagsOf(a + b, name) == TagsOf(a, name) + TagsOf(b, name)
  {
    if a == [] {
      assert a + b == b;
    } else {
      var c := a + b;
      assert c[0] == a[0] && c[1..] == a[1..] + b;
      TagsOfAppend(a[1..], b, name);
      var h := if a[0].resourceName == name then [a[0].tag] else [];
      assert TagsOf(c, name) == h + TagsOf(a[1..] + b, name);
      assert TagsOf(a, name) == h + TagsOf(a[1..], name);
    }
  }

  /** The `tagList` column: the aggregate of the resource's tags. */
  function TagList(tags: seq<ResourceTag>, name: string): string {
    Join(TagsOf(tags, name), TagSeparator)
  }

  /** The filter `r.name == i.resource_name AND i.position == 0`. */
  function IsTitleImageOf(name: string): ResourceImage -> bool {
    (i: ResourceImage) => i.resourceName == name && i.position == 0
  }

  function TitleImagesOf(images: seq<ResourceImage>, name: string): seq<ResourceImage> {
    Filter(images, IsTitleImageOf(name))
  }

  /** The outer SELECT: copy and rename the columns of one joined row. */
  function Shape(r: Resource, i: ResourceImage, tagList: string): ResourceView {
    ResourceView(r.name, r.title, r.description, r.contactInfo, i.imageUrl, tagList)
  }

  /** The rows the join produces for one resource. */
  function RowsFor(r: Resource, images: seq<ResourceImage>, tags: seq<ResourceTag>): seq<ResourceView> {
    if TagsOf(tags, r.name) == [] then []
    else
      var imgs := TitleImagesOf(images, r.name);
      seq(|imgs|, k requires 0 <= k < |imgs| => Shape(r, imgs[k], TagList(tags, r.name)))
  }

  /** `resourceBase`. */
  function ResourceBase(resources: seq<Resource>, images: seq<ResourceImage>, tags: seq<ResourceTag>): seq<ResourceView> {
    if resources == [] then []
    else RowsFor(resources[0], images, tags) + ResourceBase(resources[1..], images, tags)
  }

  /** The view row that resource `r` joined with image `i` contributes. */
  ghost predicate ProducedBy(v: ResourceView, r: Resource, i: ResourceImage, tags: seq<ResourceTag>) {
    && IsTitleImageOf(r.name)(i)
    && TagsOf(tags, r.name) != []
    && v == Shape(r, i, TagList(tags, r.name))
  }

  lemma RowsForIff(r: Resource, images: seq<ResourceImage>, tags: seq<ResourceTag>, v: ResourceView)
    ensures v in RowsFor(r, images, tags) <==> exists i :: i in images && ProducedBy(v, r, i, tags)
  {
    var rows := RowsFor(r, images, tags);
    var imgs := TitleImagesOf(images, r.name);
    FilterSpec(images, IsTitleImageOf(r.name));
    if v in rows {
      var k :| 0 <= k < |rows| && rows[k] == v;
      assert imgs[k] in imgs;
      assert ProducedBy(v, r, imgs[k], tags);
    }
    if i :| i in images && ProducedBy(v, r, i, tags) {
      assert i in imgs;
      var k :| 0 <= k < |imgs| && imgs[k] == i;
      assert rows[k] == v;
    }
  }

  /** A row is in the view exactly when some resource and some image of it
      at position 0 produce it, and that resource has at least one tag. */
  lemma {:induction false} BaseRowIff(resources: seq<Resource>, images: seq<ResourceImage>, tags: seq<ResourceTag>, v: ResourceView)
    ensures v in ResourceBase(resources, images, tags) <==>
      exists r, i :: r in resources && i in images && ProducedBy(v, r, i, tags)
  {
    if resources != [] {
      BaseRowIff(resources[1..], images, tags, v);
      RowsForIff(resources[0], images, tags, v);
      if r, i :| r in resources && i in images && ProducedBy(v, r, i, tags) {
        if r != resources[0] {
          assert r in resources[1..];
        }
      }
    }
  }

  /** Every row's title image is the `image_url` of a position-0 image row
      of that same resource. */
  lemma BaseRowHasTitleImage(resources: seq<Resource>, images: seq<ResourceImage>, tags: seq<ResourceTag>, v: ResourceView)
    requires v in ResourceBase(resources, images, tags)
    ensures exists i :: i in images && i.resourceName == v.name && i.position == 0 && i.imageUrl == v.titleImage
  {
    BaseRowIff(resources, images, tags, v);
  }

  /** Every row's resource has at least one tag, and its `tagList` is the
      aggregate of exactly that resource's tags. */
  lemma BaseRowHasTags(resources: seq<Resource>, images: seq<ResourceImage>, tags: seq<ResourceTag>, v: ResourceView)
    requires v in ResourceBase(resources, images, tags)
    ensures TagsOf(tags, v.name) != []
    ensures v.tagList == Join(TagsOf(tags, v.name), TagSeparator)
  {
    BaseRowIff(resources, images, tags, v);
  }

  /** A client that splits `tagList` on "," gets back exactly the tags of
      the row's resource, duplicates kept, provided no tag contains a comma. */
  lemma TagListRecoversTags(resources: seq<Resource>, images: seq<ResourceImage>, tags: seq<ResourceTag>, v: ResourceView)
    requires v in ResourceBase(resources, images, tags)
    requires forall t :: t in tags ==> ',' !in t.tag
    ensures forall tag :: multiset(Split(v.tagList, ','))[tag] == multiset(tags)[ResourceTag(v.name, tag)]
  {
    BaseRowHasTags(resources, images, tags, v);
    var ts := TagsOf(tags, v.name);
    TagsOfCount(tags, v.name);
    forall k | 0 <= k < |ts| ensures ',' !in ts[k] {
      assert multiset(ts)[ts[k]] > 0;
      assert ResourceTag(v.name, ts[k]) in tags;
    }
    SplitJoin(ts, ',');
  }

  /** Every row copies name, title, description and contact info of one
      resource unchanged. */
  lemma BaseRowCopiesResource(resources: seq<Resource>, images: seq<ResourceImage>, tags: seq<ResourceTag>, v: ResourceView)
    requires v in ResourceBase(resources, images, tags)
    ensures exists r :: r in resources && r.name == v.name && r.title == v.title &&
                        r.description == v.description && r.contactInfo == v.contactInfo
  {
    BaseRowIff(resources, images, tags, v);
  }

  /** A resource without a position-0 image does not appear in the view. */
  lemma ImagelessResourceDropped(resources: seq<Resource>, images: seq<ResourceImage>, tags: seq<ResourceTag>, name: string)
    requires forall i :: i in images ==> !(i.resourceName == name && i.position == 0)
    ensures forall v :: v in ResourceBase(resources, images, tags) ==> v.name != name
  {
    forall v | v in ResourceBase(resources, images, tags)
      ensures v.name != name
    {
      BaseRowHasTitleImage(resources, images, tags, v);
    }
  }

  /** A resource without tags does not appear in the view. */
  lemma TaglessResourceDropped(resources: seq<Resource>, images: seq<ResourceImage>, tags: seq<ResourceTag>, name: string)
    requires forall t :: t in tags ==> t.resourceName != name
    ensures forall v :: v in ResourceBase(resources, images, tags) ==> v.name != name
  {
    assert TagsOf(tags, name) == [] by {
      TagsOfCount(tags, name);
      forall tag ensures multiset(TagsOf(tags, name))[tag] == 0 {
        assert ResourceTag(name, tag) !in tags;
      }
      assert multiset(TagsOf(tags, name)) == multiset{};
    }
    forall v | v in ResourceBase(resources, images, tags)
      ensures v.name != name
    {
      BaseRowHasTags(resources, images, tags, v);
    }
  }

  /** The row filter `b.resource_name == ?`. */
  function NameIs(name: string): ResourceView -> bool {
    (v: ResourceView) => v.name == name
  }

  /** Every row of `RowsFor(r, ...)` is named after `r`. */
  lemma RowsForNamed(r: Resource, images: seq<ResourceImage>, tags: seq<ResourceTag>)
    ensures Filter(RowsFor(r, images, tags), NameIs(r.name)) == RowsFor(r, images, tags)
  {
    var rows := RowsFor(r, images, tags);
    if rows != [] {
      assert rows == [rows[0]] + rows[1..];
      assert forall k :: 0 <= k < |rows| ==> rows[k].name == r.name;
      RowsForNamedFrom(rows, r.name);
    }
  }

  lemma {:induction false} RowsForNamedFrom(rows: seq<ResourceView>, name: string)
    requires forall k :: 0 <= k < |rows| ==> rows[k].name == name
    ensures Filter(rows, NameIs(name)) == rows
  {
    if rows != [] {
      RowsForNamedFrom(rows[1..], name);
    }
  }

  /** No deduplication: with unique resource names, a tagged resource gets
      exactly one view row per position-0 image row, duplicates included. */
  lemma {:induction false} RowsPerResource(resources: seq<Resource>, images: seq<ResourceImage>, tags: seq<ResourceTag>, r: Resource)
    requires UniqueNames(resources)
    requires r in resources
    requires TagsOf(tags, r.name) != []
    ensures |Filter(ResourceBase(resources, images, tags), NameIs(r.name))| == |TitleImagesOf(images, r.name)|
  {
    var head, rest := RowsFor(resources[0], images, tags), ResourceBase(resources[1..], images, tags);
    FilterAppend(head, rest, NameIs(r.name));
    if resources[0] == r {
      RowsForNamed(r, images, tags);
      NoLaterRowNamed(resources, images, tags);
    } else {
      assert r in resources[1..];
      assert resources[0].name != r.name by {
        var j :| 0 <= j < |resources| && resources[j] == r;
        assert j != 0;
      }
      RowsForOther(resources[0], images, tags, r.name);
      TailUnique(resources);
      RowsPerResource(resources[1..], images, tags, r);
    }
  }

  lemma RowsForOther(q: Resource, images: seq<ResourceImage>, tags: seq<ResourceTag>, name: string)
    requires q.name != name
    ensures Filter(RowsFor(q, images, tags), NameIs(name)) == []
  {
    forall v | v in RowsFor(q, images, tags) ensures v.name != name {
      RowsForIff(q, images, tags, v);
    }
    FilterNone(RowsFor(q, images, tags), NameIs(name));
  }

  lemma TailUnique(resources: seq<Resource>)
    requires UniqueNames(resources) && resources != []
    ensures UniqueNames(resources[1..])
  {
    forall i, j | 0 <= i < j < |resources[1..]|
      ensures resources[1..][i].name != resources[1..][j].name
    {
      assert resources[1..][i] == resources[i + 1] && resources[1..][j] == resources[j + 1];
    }
  }

  lemma NoLaterRowNamed(resources: seq<Resource>, images: seq<ResourceImage>, tags: seq<ResourceTag>)
    requires UniqueNames(resources) && resources != []
    ensures Filter(ResourceBase(resources[1..], images, tags), NameIs(resources[0].name)) == []
  {
    var rest := ResourceBase(resources[1..], images, tags);
    forall v | v in rest ensures v.name != resources[0].name {
      BaseRowCopiesResource(resources[1..], images, tags, v);
      var q :| q in resources[1..] && q.name == v.name;
      var j :| 0 <= j < |resources[1..]| && resources[1..][j] == q;
      assert resources[j + 1] == q;
    }
    FilterNone(rest, NameIs(resources[0].name));
  }

  /** Adding an image row at a position other than 0 leaves the view as it
      was. */
  lemma {:induction false} NonTitleImageIrrelevant(resources: seq<Resource>, before: seq<ResourceImage>, i: ResourceImage, after: seq<ResourceImage>, tags: seq<ResourceTag>)
    requires i.position != 0
    ensures ResourceBase(resources, before + [i] + after, tags) == ResourceBase(resources, before + after, tags)
  {
    if resources != [] {
      FilterIgnoresRejected(before, i, after, IsTitleImageOf(resources[0].name));
      NonTitleImageIrrelevant(resources[1..], before, i, after, tags);
    }
  }

  /** Adding a tag row of a resource that is not in the table leaves the view
      as it was. */
  lemma {:induction false} ForeignTagIrrelevant(resources: seq<Resource>, images: seq<ResourceImage>, before: seq<ResourceTag>, t: ResourceTag, after: seq<ResourceTag>)
    requires forall r :: r in resources ==> r.name != t.resourceName
    ensures ResourceBase(resources, images, before + [t] + after) == ResourceBase(resources, images, before + after)
  {
    if resources != [] {
      var name := resources[0].name;
      TagsOfAppend(before + [t], after, name);
      TagsOfAppend(before, [t], name);
      TagsOfAppend(before, after, name);
      assert [t][1..] == [];
      assert TagsOf([t], name) == [];
      assert TagsOf(before, name) + [] == TagsOf(before, name);
      assert TagsOf(before + [t] + after, name) == TagsOf(before + after, name);
      ForeignTagIrrelevant(resources[1..], images, before, t, after);
    }
  }

  /** `getResourceQuery`: the view rows of resource `name`. */
  function ResourceRows(resources: seq<Resource>, images: seq<ResourceImage>, tags: seq<ResourceTag>, name: string): (rows: seq<ResourceView>)
    ensures forall v :: v in rows <==> v in ResourceBase(resources, images, tags) && v.name == name
  {
    FilterSpec(ResourceBase(resources, images, tags), NameIs(name));
    Filter(ResourceBase(resources, images, tags), NameIs(name))
  }

  /** What `/resources/:resourceName` sends: the first row of
      `getResourceQuery`, or nothing. */
  function GetResource(resources: seq<Resource>, images: seq<ResourceImage>, tags: seq<ResourceTag>, name: string): (r: Option<ResourceView>)
    ensures r.None? <==> forall v :: v in ResourceBase(resources, images, tags) ==> v.name != name
    ensures r.Some? ==> r.value.name == name && r.value in ResourceBase(resources, images, tags)
  {
    var rows := ResourceRows(resources, images, tags, name);
    assert rows != [] ==> rows[0] in rows;
    First(rows)
  }

  /** The row sent is the first row of the view named `name`. */
  lemma GetResourceIsFirstMatch(resources: seq<Resource>, images: seq<ResourceImage>, tags: seq<ResourceTag>, name: string)
    requires GetResource(resources, images, tags, name).Some?
    ensures exists k :: IsFirstNamed(ResourceBase(resources, images, tags), k, GetResource(resources, images, tags, name).value)
  {
    var base := ResourceBase(resources, images, tags);
    var rows := Filter(base, NameIs(name));
    assert GetResource(resources, images, tags, name) == First(rows);
    var k := FirstNamedRow(base, name);
    assert IsFirstNamed(base, k, GetResource(resources, images, tags, name).value);
  }

  /** `v` sits at index `k` of `rows` and no earlier row has its name. */
  predicate IsFirstNamed(rows: seq<ResourceView>, k: nat, v: ResourceView) {
    k < |rows| && rows[k] == v && forall j :: 0 <= j < k ==> rows[j].name != v.name
  }

  lemma FirstNamedRow(base: seq<ResourceView>, name: string) returns (k: nat)
    requires Filter(base, NameIs(name)) != []
    ensures k < |base| && base[k] == Filter(base, NameIs(name))[0]
    ensures forall j :: 0 <= j < k ==> base[j].name != name
  {
    FirstOfFilter(base, NameIs(name));
    k :| 0 <= k < |base| && base[k] == Filter(base, NameIs(name))[0] && NameIs(name)(base[k]) &&
             forall j :: 0 <= j < k ==> !NameIs(name)(base[j]);
    assert forall j :: 0 <= j < k ==> base[j].name != name;
  }

  /** `searchResourcesQuery`: the view cut to its first 100 rows. */
  function SearchResources(resources: seq<Resource>, images: seq<ResourceImage>, tags: seq<ResourceTag>): (rows: seq<ResourceView>)
    ensures |rows| <= ListingLimit && |rows| <= |ResourceBase(resources, images, tags)|
    ensures rows == ResourceBase(resources, images, tags)[..|rows|]
    ensures |ResourceBase(resources, images, tags)| <= ListingLimit ==> rows == ResourceBase(resources, images, tags)
    ensures |ResourceBase(resources, images, tags)| > ListingLimit ==> |rows| == ListingLimit
  {
    Take(ResourceBase(resources, images, tags), ListingLimit)
  }
}
