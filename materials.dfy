/** The materials route: an in-memory table of links that GET lists, POST appends to, PUT
    overwrites by id and DELETE removes from. Request parsing and responses are reduced to the
    fields read and the status returned. */
module Materials {
  import opened JsValues

  /** MaterialsLink. */
  datatype Link = Link(
    id: string, title: string, url: string, description: string,
    quarter: string, year: int, lastUpdated: string, updatedBy: string)

  /** The fields a request body may carry; `None` is a field the body does not have. */
  datatype LinkBody = LinkBody(
    id: Option<string>, title: Option<string>, url: Option<string>,
    description: Option<string>, quarter: Option<string>, year: Option<int>)

  /** The status of the reply and the link it carries, if any. */
  datatype Response = Response(status: int, link: Option<Link>)

  /** A truthy text field: present and non-empty. */
  predicate Given(f: Option<string>) {
    f.Some? && f.value != ""
  }

  /** A truthy year: present and not 0. */
  predicate GivenYear(y: Option<int>) {
    y.Some? && y.value != 0
  }

  /** `description || ''` */
  function DescriptionOf(d: Option<string>): string {
    if Given(d) then d.value else ""
  }

  /** The validation of POST: title, url, quarter and year are all truthy. */
  predicate PostValid(b: LinkBody) {
    Given(b.title) && Given(b.url) && Given(b.quarter) && GivenYear(b.year)
  }

  /** The validation of PUT: the id as well. */
  predicate PutValid(b: LinkBody) {
    Given(b.id) && PostValid(b)
  }

  /** `links.findIndex(link => link.id === id)` */
  function FirstIndexOf(links: seq<Link>, id: string): (k: int)
    ensures -1 <= k < |links|
  {
    if links == [] then -1
    else
      var k := FirstIndexOf(links[..|links| - 1], id);
      if k != -1 then k
      else if links[|links| - 1].id == id then |links| - 1
      else -1
  }

  /** The link POST creates; `newId` is `Date.now().toString()` and `timestamp` is the current
      time in ISO form. */
  function NewLink(b: LinkBody, newId: string, timestamp: string): Link
    requires PostValid(b)
  {
    Link(newId, b.title.value, b.url.value, DescriptionOf(b.description), b.quarter.value, b.year.value,
      timestamp, "User")
  }

  /** The link PUT stores over `current`: every field from the body except the id. */
  function UpdatedLink(current: Link, b: LinkBody, timestamp: string): Link
    requires PutValid(b)
  {
    current.(title := b.title.value, url := b.url.value, description := DescriptionOf(b.description),
      quarter := b.quarter.value, year := b.year.value, lastUpdated := timestamp, updatedBy := "User")
  }

  /** The table and the reply after POST. */
  function Posted(links: seq<Link>, b: LinkBody, newId: string, timestamp: string): (seq<Link>, Response) {
    if !PostValid(b) then (links, Response(400, None))
    else
      var link := NewLink(b, newId, timestamp);
      (links + [link], Response(201, Some(link)))
  }

  /** The table and the reply after PUT. */
  function Put(links: seq<Link>, b: LinkBody, timestamp: string): (seq<Link>, Response) {
    if !PutValid(b) then (links, Response(400, None))
    else
      var k := FirstIndexOf(links, b.id.value);
      if k == -1 then (links, Response(404, None))
      else
        var link := UpdatedLink(links[k], b, timestamp);
        (links[k := link], Response(200, Some(link)))
  }

  /** The table and the reply after DELETE with the `id` query parameter. */
  function Deleted(links: seq<Link>, id: Option<string>): (seq<Link>, Response) {
    if !Given(id) then (links, Response(400, None))
    else
      var k := FirstIndexOf(links, id.value);
      if k == -1 then (links, Response(404, None))
      else (links[..k] + links[k + 1..], Response(200, Some(links[k])))
  }

  /** The module-level `materialsLinks` array. */
  class MaterialsStore {
    var links: seq<Link>

    /** The table starts with the seeded links. */
    constructor(seed: seq<Link>)
      ensures links == seed
    {
      links := seed;
    }

    /** GET: the current table. */
    method Get() returns (r: seq<Link>)
      ensures r == links
    {
      r := links;
    }

    /** `materialsLinks.findIndex(link => link.id === id)` */
    method FindIndex(id: string) returns (k: int)
      ensures k == FirstIndexOf(links, id)
    {
      k := 0;
      while k < |links| && links[k].id != id
        invariant 0 <= k <= |links|
        invariant forall j :: 0 <= j < k ==> links[j].id != id
      {
        k := k + 1;
      }
      if k == |links| {
        k := -1;
      }
      FirstIndexOfIsFirst(links, id);
    }

    /** POST: validates the body, then `push`es the new link. */
    method Post(b: LinkBody, newId: string, timestamp: string) returns (r: Response)
      modifies this
      ensures (links, r) == Posted(old(links), b, newId, timestamp)
    {
      if !(Given(b.title) && Given(b.url) && Given(b.quarter) && GivenYear(b.year)) {
        return Response(400, None);
      }
      var link := Link(newId, b.title.value, b.url.value, DescriptionOf(b.description),
        b.quarter.value, b.year.value, timestamp, "User");
      links := links + [link];
      r := Response(201, Some(link));
    }

    /** PUT: validates the body, finds the link by id and replaces it in place. */
    method Update(b: LinkBody, timestamp: string) returns (r: Response)
      modifies this
      ensures (links, r) == Put(old(links), b, timestamp)
    {
      if !(Given(b.id) && Given(b.title) && Given(b.url) && Given(b.quarter) && GivenYear(b.year)) {
        return Response(400, None);
      }
      var linkIndex := FindIndex(b.id.value);
      if linkIndex == -1 {
        return Response(404, None);
      }
      links := links[linkIndex := links[linkIndex].(title := b.title.value, url := b.url.value,
        description := DescriptionOf(b.description), quarter := b.quarter.value, year := b.year.value,
        lastUpdated := timestamp, updatedBy := "User")];
      r := Response(200, Some(links[linkIndex]));
    }

    /** DELETE: checks the id, finds the link and `splice`s it out. */
    method Delete(id: Option<string>) returns (r: Response)
      modifies this
      ensures (links, r) == Deleted(old(links), id)
    {
      if !(id.Some? && id.value != "") {
        return Response(400, None);
      }
      var linkIndex := FindIndex(id.value);
      if linkIndex == -1 {
        return Response(404, None);
      }
      var deletedLink := links[linkIndex];
      links := links[..linkIndex] + links[linkIndex + 1..];
      r := Response(200, Some(deletedLink));
    }
  }

  /** findIndex yields -1 exactly when no link has the id, and otherwise the first link that does. */
  lemma {:induction false} FirstIndexOfIsFirst(links: seq<Link>, id: string)
    ensures FirstIndexOf(links, id) == -1 <==> forall j :: 0 <= j < |links| ==> links[j].id != id
    ensures FirstIndexOf(links, id) != -1 ==>
      links[FirstIndexOf(links, id)].id == id
      && forall j :: 0 <= j < FirstIndexOf(links, id) ==> links[j].id != id
  {
    if links != [] {
      var init := links[..|links| - 1];
      FirstIndexOfIsFirst(init, id);
      assert forall j :: 0 <= j < |init| ==> init[j] == links[j];
    }
  }

  /** A POST without a truthy title, url, quarter or year answers 400 and leaves the table as it
      was; a valid POST appends exactly one link, with `''` for a missing description and "User"
      as its author, after the unchanged earlier links. */
  lemma PostSpec(links: seq<Link>, b: LinkBody, newId: string, timestamp: string)
    ensures var (after, r) := Posted(links, b, newId, timestamp);
      (!PostValid(b) ==> r.status == 400 && after == links)
      && (PostValid(b) ==>
        r.status == 201 && |after| == |links| + 1 && after[..|links|] == links
        && Some(after[|links|]) == r.link
        && after[|links|].id == newId && after[|links|].title == b.title.value
        && after[|links|].url == b.url.value && after[|links|].quarter == b.quarter.value
        && after[|links|].year == b.year.value && after[|links|].lastUpdated == timestamp
        && after[|links|].description == (if Given(b.description) then b.description.value else "")
        && after[|links|].updatedBy == "User")
  {
  }

  /** A PUT missing a field answers 400, one whose id no link has answers 404, and both leave the
      table as it was; a valid PUT whose id some link has answers 200. A successful PUT overwrites only the first link with that id, keeping its id
      and the table's length. */
  lemma PutSpec(links: seq<Link>, b: LinkBody, timestamp: string)
    ensures var (after, r) := Put(links, b, timestamp);
      (!PutValid(b) ==> r.status == 400 && after == links)
      && (PutValid(b) && (forall j :: 0 <= j < |links| ==> links[j].id != b.id.value) ==>
        r.status == 404 && after == links)
      && (r.status == 200 ==>
        exists k :: 0 <= k < |links| && links[k].id == b.id.value
          && (forall j :: 0 <= j < k ==> links[j].id != b.id.value)
          && |after| == |links|
          && after[k] == UpdatedLink(links[k], b, timestamp) && after[k].id == links[k].id
          && r.link == Some(after[k])
          && forall j :: 0 <= j < |links| && j != k ==> after[j] == links[j])
    ensures PutValid(b) && (exists j :: 0 <= j < |links| && links[j].id == b.id.value) ==>
      Put(links, b, timestamp).1.status == 200
  {
    if PutValid(b) {
      FirstIndexOfIsFirst(links, b.id.value);
    }
  }

  /** A DELETE without an id answers 400, one whose id no link has answers 404, and both leave the
      table as it was; one whose id some link has answers 200. A successful DELETE removes exactly the first link with that id, returns it,
      and keeps the other links in their order. */
  lemma DeleteSpec(links: seq<Link>, id: Option<string>)
    ensures var (after, r) := Deleted(links, id);
      (!Given(id) ==> r.status == 400 && after == links)
      && (Given(id) && (forall j :: 0 <= j < |links| ==> links[j].id != id.value) ==>
        r.status == 404 && after == links)
      && (r.status == 200 ==>
        exists k :: 0 <= k < |links| && links[k].id == id.value
          && (forall j :: 0 <= j < k ==> links[j].id != id.value)
          && r.link == Some(links[k])
          && |after| == |links| - 1
          && after == links[..k] + links[k + 1..]
          && multiset(after) + multiset{links[k]} == multiset(links))
    ensures Given(id) && (exists j :: 0 <= j < |links| && links[j].id == id.value) ==>
      Deleted(links, id).1.status == 200
  {
    if Given(id) {
      FirstIndexOfIsFirst(links, id.value);
      var k := FirstIndexOf(links, id.value);
      if k != -1 {
        assert links == links[..k] + [links[k]] + links[k + 1..];
      }
    }
  }
}
