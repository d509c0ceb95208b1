/** The records the two scripts read from the live-thread API, the update objects
    `makeUpdate` builds from them, and the errors a fetch or a render can throw. */
module Records {
  import opened Values

  /** Everything the fetch-and-render engine can throw. */
  datatype Failure =
    | RetriesExhausted                       // Error 'Unable to retrieve data!'
    | RequestFailed(statusCode: Option<int>) // a requestJson error without a truthy statusCode, rethrown
    | EmptyJson                              // ReferenceError 'Empty JSON!'
    | NoChildren                             // TypeError: json.data.children is not an array
    | InvalidKind                            // TypeError 'Returned JSON is invalid!'
    | NotAString                             // TypeError: `.replace` called on a value that is no string

  /** One element of `json.data.children`: its `kind` tag and its `data` object. */
  datatype Child = Child(kind: JsVal, data: map<string, JsVal>)

  /** A parsed response body, as far as `getNextPage` looks at it. */
  datatype Json =
    | Falsy                         // null (or false, 0, ""): `!json` holds
    | Unlisted                      // a truthy value without an array at data.children
    | Listing(children: seq<Child>) // the listing of live updates

  /** The kind tag every child must carry. */
  const LiveUpdateKind := Str("LiveUpdate")

  /** Property read `data[key]`: a key the record lacks reads as undefined. */
  function Get(data: map<string, JsVal>, key: string): JsVal
  {
    if key in data then data[key] else Undefined
  }

  /** The name under which dumpUpdater.js copies the retraction flag. */
  const DumpFlag := "striken"
  /** The name under which makeStricken.js copies it. */
  const StrikeFlag := "stricken"

  /** The object `makeUpdate` returns: five properties and no others. The name of
      the flag property differs between the two scripts; see Property. */
  datatype Update = Update(timestamp: JsVal, body: JsVal, author: JsVal, flag: JsVal, id: JsVal)

  /** Property read `update[name]` on an update whose flag property is called `flagKey`. */
  function Property(u: Update, flagKey: string, name: string): JsVal
  {
    if name == "timestamp" then u.timestamp
    else if name == "body" then u.body
    else if name == "author" then u.author
    else if name == flagKey then u.flag
    else if name == "id" then u.id
    else Undefined
  }

  /** `makeUpdate(data)`: a projection of the raw record with two renames. */
  function MakeUpdate(data: map<string, JsVal>, flagKey: string): Update
  {
    Update(Get(data, "created_utc"), Get(data, "body_html"), Get(data, "author"),
           Get(data, flagKey), Get(data, "id"))
  }

  /** The raw key each property of makeUpdate's result is read from; None for
      a name the result does not have. */
  function SourceKey(name: string, flagKey: string): Option<string>
  {
    if name == "timestamp" then Some("created_utc")
    else if name == "body" then Some("body_html")
    else if name == "author" || name == flagKey || name == "id" then Some(name)
    else None
  }

  /** `makeUpdate` renames `body_html` and `created_utc`, copies `author`, the
      flag and `id` unchanged, and produces no other property. */
  lemma MakeUpdateProjects(data: map<string, JsVal>, flagKey: string, name: string)
    requires flagKey !in ["timestamp", "body", "author", "id"]
    ensures Property(MakeUpdate(data, flagKey), flagKey, name) ==
            match SourceKey(name, flagKey)
            case Some(key) => Get(data, key)
            case None => Undefined
  {
  }

  /** dumpUpdater.js copies `striken`, a property the API records do not carry
      under that name, so the record's `stricken` flag never reaches its updates,
      and the property its renderer tests, `stroken`, is always undefined. */
  lemma DumpUpdateDropsStricken(data: map<string, JsVal>)
    ensures Property(MakeUpdate(data, DumpFlag), DumpFlag, "stricken") == Undefined
    ensures Property(MakeUpdate(data, DumpFlag), DumpFlag, "stroken") == Undefined
    ensures Property(MakeUpdate(data, StrikeFlag), StrikeFlag, "stricken") == Get(data, "stricken")
  {
  }
}
