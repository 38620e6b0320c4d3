/**
  The category handlers' request rules: which fields an update sets, how
  the uploaded image and its alternative text are formed, how the
  `subcategories` field is parsed and normalised, and what a created
  category document holds.
*/
module Category {
  import opened Wrappers
  import opened JsStrings
  import opened Replies

  /** A value of a decoded request body (numbers are integers here). */
  datatype Json =
    | JNull
    | JBool(b: bool)
    | JNumber(n: int)
    | JString(s: string)
    | JArray(items: seq<Json>)
    | JObject(fields: map<string, Json>)

  /** JavaScript truthiness of a body field that may be undefined. */
  predicate JsonTruthy(v: Option<Json>) {
    match v
    case None => false
    case Some(JNull) => false
    case Some(JBool(b)) => b
    case Some(JNumber(n)) => n != 0
    case Some(JString(s)) => s != ""
    case Some(_) => true
  }

  /** `typeof v === "string"`. */
  predicate IsText(v: Option<Json>) {
    v.Some? && v.value.JString?
  }

  // ----- subcategories -----

  /** `Array.isArray(v) ? v : []`. */
  function AsArray(v: Option<Json>): (r: seq<Json>)
    ensures v.Some? && v.value.JArray? ==> r == v.value.items
    ensures r == [] || v == Some(JArray(r))
  {
    if v.Some? && v.value.JArray? then v.value.items else []
  }

  /**
    The `subcategories` list that is stored: a string is first handed to
    `JSON.parse` (`parse` answers `None` where it throws), and anything that
    is then not an array becomes the empty list.
  */
  function StoredSubcategories(v: Option<Json>, parse: string -> Option<Json>): Option<seq<Json>> {
    if IsText(v) then
      match parse(v.value.s)
      case None => None
      case Some(p) => Some(AsArray(Some(p)))
    else
      Some(AsArray(v))
  }

  /**
    Storing throws exactly when a string does not parse; an array, given or
    parsed, is kept as it is; a non-empty stored list is always such an array.
  */
  lemma StoredSubcategoriesFacts(v: Option<Json>, parse: string -> Option<Json>)
    ensures var r := StoredSubcategories(v, parse);
      && (r.None? <==> IsText(v) && parse(v.value.s).None?)
      && (r.Some? && v.Some? && v.value.JArray? ==> r.value == v.value.items)
      && (r.Some? && IsText(v) && parse(v.value.s).value.JArray? ==> r.value == parse(v.value.s).value.items)
      && (r.Some? && r.value != [] ==>
            v == Some(JArray(r.value)) || (IsText(v) && parse(v.value.s) == Some(JArray(r.value))))
  {
  }

  /** Sending back the list that was stored stores the same list again. */
  lemma ResubmittedSubcategories(items: seq<Json>, parse: string -> Option<Json>)
    ensures StoredSubcategories(Some(JArray(items)), parse) == Some(items)
  {
  }

  // ----- the update object -----

  /** The only keys an update may set. */
  const UpdateKeys: set<string> := {"name", "type", "Image", "subcategories"}

  /** The stored image object. */
  function ImageValue(url: string, altText: Json): Json {
    JObject(map["url" := JString(url), "alt_text" := altText])
  }

  /** `name || ''`, the alternative text of an updated image. */
  function UpdateAltText(name: Option<Json>): Json {
    if JsonTruthy(name) then name.value else JString("")
  }

  /** `if (present) m[key] = value`. */
  function Put(m: map<string, Json>, key: string, present: bool, value: Json): map<string, Json> {
    if present then m[key := value] else m
  }

  /**
    The update object of updateCategory, or `None` when parsing the
    subcategories throws.
  */
  function UpdateData(name: Option<Json>, kind: Option<Json>, path: Option<string>,
                      subcategories: Option<Json>, parse: string -> Option<Json>): Option<map<string, Json>>
  {
    var stored := StoredSubcategories(subcategories, parse);
    if JsonTruthy(subcategories) && stored.None? then None
    else
      var withName := Put(map[], "name", JsonTruthy(name), name.GetOr(JNull));
      var withType := Put(withName, "type", JsonTruthy(kind), kind.GetOr(JNull));
      var withImage := Put(withType, "Image", Truthy(path), ImageValue(path.GetOr(""), UpdateAltText(name)));
      Some(Put(withImage, "subcategories", JsonTruthy(subcategories), JArray(stored.GetOr([]))))
  }

  /** updateCategory builds its update object field by field. */
  method BuildUpdateData(name: Option<Json>, kind: Option<Json>, path: Option<string>,
                         subcategories: Option<Json>, parse: string -> Option<Json>)
    returns (update: Option<map<string, Json>>)
    ensures update == UpdateData(name, kind, path, subcategories, parse)
  {
    var data: map<string, Json> := map[];
    if JsonTruthy(name) {
      data := data["name" := name.value];
    }
    assert data == Put(map[], "name", JsonTruthy(name), name.GetOr(JNull));
    if JsonTruthy(kind) {
      data := data["type" := kind.value];
    }
    ghost var withType := data;
    if Truthy(path) {
      data := data["Image" := ImageValue(path.value, UpdateAltText(name))];
    }
    assert data == Put(withType, "Image", Truthy(path), ImageValue(path.GetOr(""), UpdateAltText(name)));
    ghost var withImage := data;
    if JsonTruthy(subcategories) {
      var parsed := subcategories;
      if IsText(subcategories) {
        parsed := parse(subcategories.value.s);
        if parsed.None? {
          return None;
        }
      }
      assert StoredSubcategories(subcategories, parse) == Some(AsArray(parsed));
      data := data["subcategories" := JArray(AsArray(parsed))];
    }
    assert data == Put(withImage, "subcategories", JsonTruthy(subcategories),
                       JArray(StoredSubcategories(subcategories, parse).GetOr([])));
    return Some(data);
  }

  /** The update throws exactly when a truthy string of subcategories does not parse. */
  lemma UpdateDataThrows(name: Option<Json>, kind: Option<Json>, path: Option<string>,
                         subcategories: Option<Json>, parse: string -> Option<Json>)
    ensures UpdateData(name, kind, path, subcategories, parse).None?
        <==> JsonTruthy(subcategories) && IsText(subcategories) && parse(subcategories.value.s).None?
  {
  }

  /**
    Each key is in the update exactly when its request field is truthy, with
    the value the handler assigns, and no other key is ever set.
  */
  lemma UpdateDataFields(name: Option<Json>, kind: Option<Json>, path: Option<string>,
                         subcategories: Option<Json>, parse: string -> Option<Json>)
    requires UpdateData(name, kind, path, subcategories, parse).Some?
    ensures var u := UpdateData(name, kind, path, subcategories, parse).value;
      && u.Keys <= UpdateKeys
      && ("name" in u <==> JsonTruthy(name))
      && (JsonTruthy(name) ==> u["name"] == name.value)
      && ("type" in u <==> JsonTruthy(kind))
      && (JsonTruthy(kind) ==> u["type"] == kind.value)
      && ("Image" in u <==> Truthy(path))
      && (Truthy(path) ==> u["Image"] == ImageValue(path.value, if JsonTruthy(name) then name.value else JString("")))
      && ("subcategories" in u <==> JsonTruthy(subcategories))
      && (JsonTruthy(subcategories) ==>
            u["subcategories"] == JArray(StoredSubcategories(subcategories, parse).value))
  {
  }

  // ----- applying an update -----

  /** findByIdAndUpdate's `$set`: the update's keys are replaced, the rest stay. */
  function ApplyUpdate(doc: map<string, Json>, update: map<string, Json>): (r: map<string, Json>)
    ensures r.Keys == doc.Keys + update.Keys
    ensures forall k :: k in update ==> r[k] == update[k]
    ensures forall k :: k in doc && k !in update ==> r[k] == doc[k]
  {
    doc + update
  }

  /** Applying the same update twice is applying it once. */
  lemma ApplyUpdateIdempotent(doc: map<string, Json>, update: map<string, Json>)
    ensures ApplyUpdate(ApplyUpdate(doc, update), update) == ApplyUpdate(doc, update)
  {
  }

  /**
    An update of a category changes none of its other fields, and leaves
    `name` and `type` as they were when the request leaves them falsy.
  */
  lemma UpdateKeepsOtherFields(doc: map<string, Json>, name: Option<Json>, kind: Option<Json>, path: Option<string>,
                               subcategories: Option<Json>, parse: string -> Option<Json>, key: string)
    requires UpdateData(name, kind, path, subcategories, parse).Some?
    requires key in doc
    requires key !in UpdateKeys || (key == "name" && !JsonTruthy(name)) || (key == "type" && !JsonTruthy(kind))
    ensures ApplyUpdate(doc, UpdateData(name, kind, path, subcategories, parse).value)[key] == doc[key]
  {
    UpdateDataFields(name, kind, path, subcategories, parse);
  }

  /** A request with every field falsy leaves the category as it is. */
  lemma EmptyRequestChangesNothing(doc: map<string, Json>, name: Option<Json>, kind: Option<Json>,
                                   path: Option<string>, subcategories: Option<Json>, parse: string -> Option<Json>)
    requires !JsonTruthy(name) && !JsonTruthy(kind) && !Truthy(path) && !JsonTruthy(subcategories)
    ensures UpdateData(name, kind, path, subcategories, parse) == Some(map[])
    ensures ApplyUpdate(doc, map[]) == doc
  {
  }

  // ----- documents and handlers -----

  /** A stored category document, field by field. */
  class Document {
    var fields: map<string, Json>

    constructor Create(initial: map<string, Json>)
      ensures fields == initial
    {
      fields := initial;
    }

    /** The document after findByIdAndUpdate with `update`. */
    method Set(update: map<string, Json>)
      modifies this
      ensures fields == ApplyUpdate(old(fields), update)
    {
      fields := fields + update;
    }
  }

  /**
    updateCategory: a throw while parsing the subcategories answers 500
    before the lookup; a missing category answers 404; otherwise the update
    is applied and the handler answers 200.
  */
  method UpdateCategory(category: Document?, name: Option<Json>, kind: Option<Json>, path: Option<string>,
                        subcategories: Option<Json>, parse: string -> Option<Json>)
    returns (reply: Reply)
    modifies category
    ensures UpdateData(name, kind, path, subcategories, parse).None? ==>
      reply == Reply(500, false) && (category != null ==> unchanged(category))
    ensures UpdateData(name, kind, path, subcategories, parse).Some? && category == null ==>
      reply == Reply(404, false)
    ensures UpdateData(name, kind, path, subcategories, parse).Some? && category != null ==>
      reply == Reply(200, true)
      && category.fields == ApplyUpdate(old(category.fields), UpdateData(name, kind, path, subcategories, parse).value)
  {
    var update := BuildUpdateData(name, kind, path, subcategories, parse);
    if update.None? {
      return Reply(500, false);
    }
    if category == null {
      return Reply(404, false);
    }
    category.Set(update.value);
    reply := Reply(200, true);
  }

  /** A field that is only stored when the request defines it. */
  function Defined(key: string, value: Option<Json>): map<string, Json> {
    if value.Some? then map[key := value.value] else map[]
  }

  /**
    The document createCategory stores: the name and type as given, the
    image with the uploaded path and the name as alternative text, and the
    normalised subcategory list.
  */
  function CreatedFields(name: Option<Json>, kind: Option<Json>, path: string, subcategories: seq<Json>): (r: map<string, Json>)
    ensures r.Keys <= UpdateKeys
    ensures "Image" in r && "subcategories" in r
    ensures ("name" in r <==> name.Some?) && ("type" in r <==> kind.Some?)
  {
    Defined("name", name) + Defined("type", kind)
      + map["Image" := JObject(map["url" := JString(path)] + Defined("alt_text", name)),
            "subcategories" := JArray(subcategories)]
  }

  /**
    The stored values of a created category: the image's URL is the upload
    path and its alternative text is the name, when there is one.
  */
  lemma CreatedFieldValues(name: Option<Json>, kind: Option<Json>, path: string, subcategories: seq<Json>)
    ensures var r := CreatedFields(name, kind, path, subcategories);
      && r["subcategories"] == JArray(subcategories)
      && r["Image"].JObject? && r["Image"].fields["url"] == JString(path)
      && (name.Some? ==> r["name"] == name.value && r["Image"] == ImageValue(path, name.value))
      && (name.None? ==> "alt_text" !in r["Image"].fields)
      && (kind.Some? ==> r["type"] == kind.value)
  {
  }

  /**
    createCategory: a request without an uploaded file throws reading its
    path (500), as does a string of subcategories that does not parse;
    otherwise the category is created and the handler answers 201.
    Unlike an update, the subcategories are parsed whether or not the field
    is truthy.
  */
  method CreateCategory(name: Option<Json>, kind: Option<Json>, file: Option<string>,
                        subcategories: Option<Json>, parse: string -> Option<Json>)
    returns (reply: Reply, category: Document?)
    ensures file.None? || StoredSubcategories(subcategories, parse).None? ==>
      reply == Reply(500, false) && category == null
    ensures file.Some? && StoredSubcategories(subcategories, parse).Some? ==>
      reply == Reply(201, true) && category != null && fresh(category)
      && category.fields == CreatedFields(name, kind, file.value, StoredSubcategories(subcategories, parse).value)
  {
    if file.None? {
      return Reply(500, false), null;
    }
    var path := file.value;
    var parsed := subcategories;
    if IsText(subcategories) {
      parsed := parse(subcategories.value.s);
      if parsed.None? {
        return Reply(500, false), null;
      }
    }
    category := new Document.Create(CreatedFields(name, kind, path, AsArray(parsed)));
    reply := Reply(201, true);
  }
}
