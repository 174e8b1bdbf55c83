/** The JSON:API resource object a serializer computes for one domain object, stated as
    functions of a snapshot of the serializer (its object, options and the memo tables at
    the start of a call). The imperative serializer in module Serializer is proved to
    compute exactly these values. */
module Resource {
  import opened Common
  import opened OrderedHash
  import opened NameMemo
  import Decimal

  /** The domain object's `id`, before `to_s`. */
  datatype ObjectId = IntId(n: int) | StrId(s: string) | NilId

  /** `object.id.to_s`. */
  function IdString(id: ObjectId): string {
    match id
    case IntId(n) => Decimal.IntToString(n)
    case StrId(s) => s
    case NilId => ""
  }

  /** The domain object: its id, its class name, and the values its public methods return. */
  datatype DomainObject = DomainObject(id: ObjectId, className: string, send: string -> Value)

  /** Where a declared attribute or relationship takes its value from: a method of the
      object by name, or a block (identified by a tag) run in the serializer's scope. */
  datatype ValueSource = MethodName(name: string) | Block(tag: nat)

  /** The options of one relationship declaration that the serializer reads. */
  datatype RelOptions = RelOptions(includeLinks: bool, includeData: bool)

  /** One relationship declaration: `{attr_or_block:, options:}`. */
  datatype RelData = RelData(source: ValueSource, options: RelOptions)

  /** The declaration hashes of the serializer class; each may be nil. */
  datatype Declarations = Declarations(
    attributes: Option<Hash<string, ValueSource>>,
    toOne: Option<Hash<string, RelData>>,
    toMany: Option<Hash<string, RelData>>)

  /** The options hash given to `initialize`; an absent key is nil. */
  datatype Options = Options(
    context: Option<map<string, Value>>,
    baseUrl: Option<string>,
    fields: Option<map<string, seq<string>>>,
    includeLinkages: Option<seq<string>>)

  /** The errors `find_serializer` raises (lib/jsonapi-serializers.rb). */
  datatype LookupError = AmbiguousCollection | InvalidInclude

  /** What can abort `relationships`: a failed lookup, or a to-many value that has no `each`. */
  datatype Error = LookupFailed(reason: LookupError) | NotEnumerable(value: Value)

  /** The `id`, `type` and `meta` of the serializer found for a related object. */
  datatype Identity = Identity(id: string, resourceType: string, meta: Value)

  /** The collaborators outside the core: the naming configuration, `find_serializer`
      (given the related object and the relationship's options), and the evaluation of a
      declared block with the serializer's object and context in scope. */
  datatype Env = Env(
    inflector: Inflector,
    findSerializer: (Value, RelOptions) -> Result<Identity, LookupError>,
    runBlock: (nat, DomainObject, map<string, Value>) -> Value)

  /** `evaluate_attr_or_block`. */
  function Evaluate(env: Env, obj: DomainObject, context: map<string, Value>, source: ValueSource): Value {
    match source
    case MethodName(m) => obj.send(m)
    case Block(tag) => env.runBlock(tag, obj, context)
  }

  /** `"#{base_url}"`: nil interpolates as the empty string. */
  function BaseString(baseUrl: Option<string>): string {
    baseUrl.GetOr("")
  }

  /** A serializer as seen at one moment: its instance variables, the memo tables and
      the collaborators. */
  datatype View = View(
    obj: DomainObject,
    context: map<string, Value>,
    baseUrl: Option<string>,
    fields: map<string, seq<string>>,
    includeLinkages: seq<string>,
    tables: Tables,
    env: Env)
  {
    function Id(): string {
      IdString(obj.id)
    }

    function TypeName(): string {
      tables.TypeOf(env.inflector, obj.className)
    }

    function Fmt(name: string): string {
      tables.FormatOf(env.inflector, name)
    }

    function SelfLink(): string {
      BaseString(baseUrl) + "/" + TypeName() + "/" + Id()
    }

    function RelationshipSelfLink(name: string): string {
      SelfLink() + "/relationships/" + Fmt(name)
    }

    function RelationshipRelatedLink(name: string): string {
      SelfLink() + "/" + Fmt(name)
    }

    /** `should_include_attr?`: the sparse-fieldset gate. */
    predicate Gate(name: string) {
      TypeName() !in fields || Fmt(name) in fields[TypeName()]
    }

    /** Whether a relationship's linkage is computed and the relationship stored. */
    predicate Requested(name: string, options: RelOptions) {
      Fmt(name) in includeLinkages || options.includeData
    }

    function Eval(source: ValueSource): Value {
      Evaluate(env, obj, context, source)
    }
  }

  // ---------------------------------------------------------------- links

  /** `links`: the resource's own link. */
  function ResourceLinks(v: View): (links: Hash<string, string>)
    ensures Keys(links) == ["self"]
    ensures Get(links, "self") == Some(BaseString(v.baseUrl) + "/" + v.TypeName() + "/" + v.Id())
  {
    [("self", v.SelfLink())]
  }

  /** Both relationship links extend the resource's self link and never coincide. */
  lemma RelationshipLinksShape(v: View, name: string)
    ensures v.SelfLink() <= v.RelationshipSelfLink(name)
    ensures v.SelfLink() <= v.RelationshipRelatedLink(name)
    ensures v.RelationshipSelfLink(name) != v.RelationshipRelatedLink(name)
  {
    assert |v.RelationshipSelfLink(name)| != |v.RelationshipRelatedLink(name)|;
  }

  /** With no base URL the self link is still emitted, as a path starting at "/". */
  lemma SelfLinkWithoutBaseUrl(v: View)
    requires v.baseUrl.None?
    ensures v.SelfLink() == "/" + v.TypeName() + "/" + v.Id()
  {
  }

  // ---------------------------------------------------------------- attributes

  /** The attributes hash after visiting the declarations `ds` in order. */
  function AttributesFrom(v: View, ds: Hash<string, ValueSource>): Hash<string, Value>
    decreases |ds|
  {
    if |ds| == 0 then []
    else
      var h := AttributesFrom(v, ds[..|ds| - 1]);
      var (name, source) := ds[|ds| - 1];
      if v.Gate(name) then Put(h, v.Fmt(name), v.Eval(source)) else h
  }

  /** `attributes`. */
  function AttributesOf(v: View, attrs: Option<Hash<string, ValueSource>>): Hash<string, Value> {
    match attrs
    case None => []
    case Some(ds) => AttributesFrom(v, ds)
  }

  /** The names whose value source `attributes` evaluates, in order. */
  function EvaluatedFrom(v: View, ds: Hash<string, ValueSource>): seq<string>
    decreases |ds|
  {
    if |ds| == 0 then []
    else EvaluatedFrom(v, ds[..|ds| - 1]) + (if v.Gate(ds[|ds| - 1].0) then [ds[|ds| - 1].0] else [])
  }

  function EvaluatedOf(v: View, attrs: Option<Hash<string, ValueSource>>): seq<string> {
    match attrs
    case None => []
    case Some(ds) => EvaluatedFrom(v, ds)
  }

  /** The formatted names of the declarations that pass the gate, in declaration order. */
  function GatedNames(v: View, ds: Hash<string, ValueSource>): seq<string>
    decreases |ds|
  {
    if |ds| == 0 then []
    else GatedNames(v, ds[..|ds| - 1]) + (if v.Gate(ds[|ds| - 1].0) then [v.Fmt(ds[|ds| - 1].0)] else [])
  }

  /** A key is in the attributes hash iff it is the formatted name of a declared attribute
      that passes the sparse-fieldset gate. */
  lemma {:induction false} AttributesKeys(v: View, ds: Hash<string, ValueSource>)
    ensures forall k :: k in Keys(AttributesFrom(v, ds)) <==> k in GatedNames(v, ds)
    ensures forall k :: k in GatedNames(v, ds) <==>
              exists i :: 0 <= i < |ds| && v.Gate(ds[i].0) && v.Fmt(ds[i].0) == k
  {
    KeysAreGatedNames(v, ds);
    GatedNamesIndex(v, ds);
  }

  lemma {:induction false} KeysAreGatedNames(v: View, ds: Hash<string, ValueSource>)
    ensures forall k :: k in Keys(AttributesFrom(v, ds)) <==> k in GatedNames(v, ds)
    decreases |ds|
  {
    if |ds| > 0 {
      var p := ds[..|ds| - 1];
      KeysAreGatedNames(v, p);
      AttributesStep(v, ds, |ds| - 1);
      assert ds[..|ds|] == ds;
    }
  }

  lemma {:induction false} GatedNamesIndex(v: View, ds: Hash<string, ValueSource>)
    ensures forall k :: k in GatedNames(v, ds) <==>
              exists i :: 0 <= i < |ds| && v.Gate(ds[i].0) && v.Fmt(ds[i].0) == k
    decreases |ds|
  {
    if |ds| > 0 {
      var p := ds[..|ds| - 1];
      GatedNamesIndex(v, p);
      forall k | k in GatedNames(v, ds)
        ensures exists i :: 0 <= i < |ds| && v.Gate(ds[i].0) && v.Fmt(ds[i].0) == k
      {
        if k in GatedNames(v, p) {
          var i :| 0 <= i < |p| && v.Gate(p[i].0) && v.Fmt(p[i].0) == k;
          assert ds[i] == p[i];
        } else {
          assert v.Gate(ds[|ds| - 1].0) && v.Fmt(ds[|ds| - 1].0) == k;
        }
      }
      forall k | exists i :: 0 <= i < |ds| && v.Gate(ds[i].0) && v.Fmt(ds[i].0) == k
        ensures k in GatedNames(v, ds)
      {
        var i :| 0 <= i < |ds| && v.Gate(ds[i].0) && v.Fmt(ds[i].0) == k;
        if i < |p| {
          assert p[i] == ds[i];
        }
      }
    }
  }

  /** When the gated formatted names are distinct, the keys are exactly those names in
      declaration order. */
  lemma {:induction false} AttributesKeyOrder(v: View, ds: Hash<string, ValueSource>)
    requires Distinct(GatedNames(v, ds))
    ensures Keys(AttributesFrom(v, ds)) == GatedNames(v, ds)
    decreases |ds|
  {
    if |ds| > 0 {
      var p := ds[..|ds| - 1];
      var (name, source) := ds[|ds| - 1];
      var g := GatedNames(v, p);
      assert GatedNames(v, ds)[..|g|] == g;
      assert Distinct(g);
      AttributesKeyOrder(v, p);
      if v.Gate(name) {
        var f := v.Fmt(name);
        assert GatedNames(v, ds) == g + [f];
        var all := GatedNames(v, ds);
        forall j | 0 <= j < |g|
          ensures g[j] != f
        {
          assert all[j] == g[j] && all[|g|] == f;
        }
        assert Keys(AttributesFrom(v, ds)) == Keys(Put(AttributesFrom(v, p), f, v.Eval(source)));
      }
    }
  }

  /** The value stored under a formatted name is the value of the last gated declaration
      with that formatted name. */
  lemma {:induction false} AttributesValue(v: View, ds: Hash<string, ValueSource>, i: nat)
    requires i < |ds| && v.Gate(ds[i].0)
    requires forall j :: i < j < |ds| && v.Gate(ds[j].0) ==> v.Fmt(ds[j].0) != v.Fmt(ds[i].0)
    ensures Get(AttributesFrom(v, ds), v.Fmt(ds[i].0)) == Some(v.Eval(ds[i].1))
    decreases |ds|
  {
    if i < |ds| - 1 {
      var p := ds[..|ds| - 1];
      assert p[i] == ds[i];
      AttributesValue(v, p, i);
    }
  }

  /** Declaration `i` extends what `attributes` has built and evaluated from the ones before it. */
  lemma AttributesStep(v: View, ds: Hash<string, ValueSource>, i: nat)
    requires i < |ds|
    ensures AttributesFrom(v, ds[..i + 1]) ==
              if v.Gate(ds[i].0) then Put(AttributesFrom(v, ds[..i]), v.Fmt(ds[i].0), v.Eval(ds[i].1))
              else AttributesFrom(v, ds[..i])
    ensures EvaluatedFrom(v, ds[..i + 1]) == EvaluatedFrom(v, ds[..i]) + if v.Gate(ds[i].0) then [ds[i].0] else []
  {
    assert ds[..i + 1][..i] == ds[..i];
  }

  /** Only declarations that pass the gate have their value source evaluated. */
  lemma {:induction false} OnlyGatedAttributesEvaluated(v: View, ds: Hash<string, ValueSource>)
    ensures forall n :: n in EvaluatedFrom(v, ds) <==> n in Keys(ds) && v.Gate(n)
    decreases |ds|
  {
    if |ds| > 0 {
      var p := ds[..|ds| - 1];
      OnlyGatedAttributesEvaluated(v, p);
      KeysAppend(p, ds[|ds| - 1]);
      assert p + [ds[|ds| - 1]] == ds;
    }
  }

  lemma {:induction false} KeysAppend<K, V>(h: Hash<K, V>, e: (K, V))
    ensures Keys(h + [e]) == Keys(h) + [e.0]
    decreases |h|
  {
    if h != [] {
      assert (h + [e])[1..] == h[1..] + [e];
      KeysAppend(h[1..], e);
    }
  }

  /** A fieldset asking only for `name`, on a resource declaring `name`, `age` and `email`
      (with names that format to themselves), leaves exactly the key `name`. */
  lemma SparseFieldsetExample(v: View, name: ValueSource, age: ValueSource, email: ValueSource)
    requires v.fields == map[v.TypeName() := ["name"]]
    requires v.Fmt("name") == "name" && v.Fmt("age") == "age" && v.Fmt("email") == "email"
    ensures Keys(AttributesFrom(v, [("name", name), ("age", age), ("email", email)])) == ["name"]
  {
    var ds := [("name", name), ("age", age), ("email", email)];
    assert v.Gate("name") && !v.Gate("age") && !v.Gate("email");
    var one := AttributesFrom(v, ds[..1]);
    assert ds[..1][..0] == [] && ds[..1][0] == ("name", name);
    assert AttributesFrom(v, ds[..1][..0]) == [];
    assert one == Put([], "name", v.Eval(name));
    assert Keys(one) == ["name"];
    assert ds[..2][..1] == ds[..1];
    assert AttributesFrom(v, ds[..2]) == one;
    assert ds[..3][..2] == ds[..2];
    assert ds[..3] == ds;
  }

  // ---------------------------------------------------------------- relationship declarations

  /** `has_one_relationships` / `has_many_relationships`: the declarations that pass the
      gate, stored by name. */
  function GatedFrom(v: View, ds: Hash<string, RelData>): Hash<string, RelData>
    decreases |ds|
  {
    if |ds| == 0 then []
    else
      var h := GatedFrom(v, ds[..|ds| - 1]);
      var (name, data) := ds[|ds| - 1];
      if v.Gate(name) then Put(h, name, data) else h
  }

  /** Declaration `i` extends the gated copy of the ones before it. */
  lemma GatedStep(v: View, ds: Hash<string, RelData>, i: nat)
    requires i < |ds|
    ensures GatedFrom(v, ds[..i + 1]) ==
              if v.Gate(ds[i].0) then Put(GatedFrom(v, ds[..i]), ds[i].0, ds[i].1) else GatedFrom(v, ds[..i])
  {
    assert ds[..i + 1][..i] == ds[..i];
  }

  function GatedOf(v: View, ds: Option<Hash<string, RelData>>): Hash<string, RelData> {
    match ds
    case None => []
    case Some(d) => GatedFrom(v, d)
  }

  /** A declaration hash (distinct names) filtered by the gate keeps exactly the
      declarations that pass it. */
  lemma {:induction false} GatedEntries(v: View, ds: Hash<string, RelData>)
    requires Distinct(Keys(ds))
    ensures forall e :: e in GatedFrom(v, ds) <==> e in ds && v.Gate(e.0)
    ensures forall k :: k in Keys(GatedFrom(v, ds)) ==> k in Keys(ds)
    decreases |ds|
  {
    if |ds| > 0 {
      var p := ds[..|ds| - 1];
      var last := ds[|ds| - 1];
      KeysAppend(p, last);
      assert p + [last] == ds;
      KeysIndex(ds);
      KeysIndex(p);
      assert Distinct(Keys(p)) by {
        assert Keys(p) == Keys(ds)[..|p|];
      }
      GatedEntries(v, p);
      if v.Gate(last.0) {
        assert last.0 !in Keys(p);
        PutFresh(GatedFrom(v, p), last.0, last.1);
      }
    }
  }

  // ---------------------------------------------------------------- linkage

  /** The `links` block of a relationship when `include_links` is set. */
  datatype RelLinks = RelLinks(self: string, related: string)

  /** One element of a to-many linkage array. */
  datatype Entry = Entry(id: string, resourceType: string, meta: Option<Value>)

  /** Resource linkage: `null`, one identifier, or an array. */
  datatype Linkage = NullData | One(id: string, resourceType: string) | Many(entries: seq<Entry>)

  /** A stored relationship object; it always has `data`, and `links` when asked for. */
  datatype RelBlock = RelBlock(links: Option<RelLinks>, data: Linkage)

  function LinksFor(v: View, name: string, options: RelOptions): Option<RelLinks> {
    if options.includeLinks
    then Some(RelLinks(v.RelationshipSelfLink(name), v.RelationshipRelatedLink(name)))
    else None
  }

  /** `find_serializer`, as the core sees it. */
  type Finder = (Value, RelOptions) -> Result<Identity, LookupError>

  /** The linkage entry for a found serializer: `meta` only when truthy. */
  function EntryOf(s: Identity): Entry {
    Entry(s.id, s.resourceType, if Truthy(s.meta) then Some(s.meta) else None)
  }

  /** The `data` of a requested to-one relationship whose value is `related`. */
  function ToOneLinkage(find: Finder, related: Value, options: RelOptions): Result<Linkage, Error> {
    if related == Nil then Ok(NullData)
    else match find(related, options)
      case Err(e) => Err(LookupFailed(e))
      case Ok(s) => Ok(One(s.id, s.resourceType))
  }

  /** `has_many_relationship(...) || []`, then `each`. */
  function Collection(related: Value): Result<seq<Value>, Error> {
    if !Truthy(related) then Ok([])
    else if related.List? then Ok(related.items)
    else Err(NotEnumerable(related))
  }

  /** The linkage array after appending an entry for each of `objects` to `acc`. */
  function Linkages(find: Finder, objects: seq<Value>, options: RelOptions, acc: seq<Entry>): Result<seq<Entry>, Error>
    decreases |objects|
  {
    if objects == [] then Ok(acc)
    else match find(objects[0], options)
      case Err(e) => Err(LookupFailed(e))
      case Ok(s) => Linkages(find, objects[1..], options, acc + [EntryOf(s)])
  }

  /** The `data` of a requested to-many relationship whose value is `related`. */
  function ToManyLinkage(find: Finder, related: Value, options: RelOptions): Result<Linkage, Error> {
    match Collection(related)
    case Err(e) => Err(e)
    case Ok(objects) =>
      match Linkages(find, objects, options, [])
      case Err(e) => Err(e)
      case Ok(entries) => Ok(Many(entries))
  }

  /** The relationship object stored for a requested declaration. */
  function BlockOf(v: View, name: string, data: RelData, many: bool): Result<RelBlock, Error> {
    var related := v.Eval(data.source);
    var linkage := if many then ToManyLinkage(v.env.findSerializer, related, data.options)
                   else ToOneLinkage(v.env.findSerializer, related, data.options);
    match linkage
    case Err(e) => Err(e)
    case Ok(l) => Ok(RelBlock(LinksFor(v, name, data.options), l))
  }

  /** One of the two loops of `relationships`, from the hash `acc` built so far. */
  function Pass(v: View, hs: Hash<string, RelData>, many: bool, acc: Hash<string, RelBlock>): Result<Hash<string, RelBlock>, Error>
    decreases |hs|
  {
    if hs == [] then Ok(acc)
    else
      var (name, data) := hs[0];
      if !v.Requested(name, data.options) then Pass(v, hs[1..], many, acc)
      else match BlockOf(v, name, data, many)
        case Err(e) => Err(e)
        case Ok(b) => Pass(v, hs[1..], many, Put(acc, v.Fmt(name), b))
  }

  /** `relationships`: to-one relationships first, then to-many ones into the same hash. */
  function RelationshipsOf(v: View, d: Declarations): Result<Hash<string, RelBlock>, Error> {
    match Pass(v, GatedOf(v, d.toOne), false, [])
    case Err(e) => Err(e)
    case Ok(h) => Pass(v, GatedOf(v, d.toMany), true, h)
  }

  /** The names whose value source one loop of `relationships` evaluates, in order: a
      declaration that is not requested is skipped before its source is run, and the
      first relationship object that cannot be built ends the loop. */
  function PassEvaluated(v: View, hs: Hash<string, RelData>, many: bool): seq<string>
    decreases |hs|
  {
    if hs == [] then []
    else
      var (name, data) := hs[0];
      if !v.Requested(name, data.options) then PassEvaluated(v, hs[1..], many)
      else if BlockOf(v, name, data, many).Err? then [name]
      else [name] + PassEvaluated(v, hs[1..], many)
  }

  /** A loop is its first step followed by the rest of the loop, unless that step fails. */
  lemma PassUnfold(v: View, hs: Hash<string, RelData>, many: bool, acc: Hash<string, RelBlock>)
    requires hs != []
    ensures PassEvaluated(v, [hs[0]], many) == if v.Requested(hs[0].0, hs[0].1.options) then [hs[0].0] else []
    ensures Pass(v, [hs[0]], many, acc).Err? <==>
              v.Requested(hs[0].0, hs[0].1.options) && BlockOf(v, hs[0].0, hs[0].1, many).Err?
    ensures Pass(v, [hs[0]], many, acc).Err? ==>
              Pass(v, hs, many, acc) == Pass(v, [hs[0]], many, acc)
              && PassEvaluated(v, hs, many) == PassEvaluated(v, [hs[0]], many)
    ensures Pass(v, [hs[0]], many, acc).Ok? ==>
              Pass(v, hs, many, acc) == Pass(v, hs[1..], many, Pass(v, [hs[0]], many, acc).value)
              && PassEvaluated(v, hs, many) == PassEvaluated(v, [hs[0]], many) + PassEvaluated(v, hs[1..], many)
  {
    var (name, data) := hs[0];
    var one := [hs[0]];
    assert one[0] == hs[0] && one[1..] == [];
    if !v.Requested(name, data.options) {
      assert Pass(v, one, many, acc) == Pass(v, [], many, acc) == Ok(acc);
      assert PassEvaluated(v, one, many) == PassEvaluated(v, [], many) == [];
    } else {
      var block := BlockOf(v, name, data, many);
      assert PassEvaluated(v, one, many) == [name];
      if block.Err? {
        assert Pass(v, one, many, acc) == Err(block.error);
      } else {
        var acc' := Put(acc, v.Fmt(name), block.value);
        assert Pass(v, one, many, acc) == Pass(v, [], many, acc') == Ok(acc');
      }
    }
  }

  /** Step `i` of a loop that has built `data` and run the sources in `evaluated` since
      starting from `acc`: a failed step is the loop's result, and a successful one moves
      on to step `i + 1`. */
  lemma PassStep(v: View, hs: Hash<string, RelData>, i: nat, many: bool, acc: Hash<string, RelBlock>,
                 data: Hash<string, RelBlock>, evaluated: seq<string>)
    requires i < |hs|
    requires Pass(v, hs[i..], many, data) == Pass(v, hs, many, acc)
    requires evaluated + PassEvaluated(v, hs[i..], many) == PassEvaluated(v, hs, many)
    ensures var step := Pass(v, [hs[i]], many, data);
      && (step.Err? ==> step == Pass(v, hs, many, acc)
                        && evaluated + PassEvaluated(v, [hs[i]], many) == PassEvaluated(v, hs, many))
      && (step.Ok? ==> Pass(v, hs[i + 1..], many, step.value) == Pass(v, hs, many, acc)
                       && evaluated + PassEvaluated(v, [hs[i]], many) + PassEvaluated(v, hs[i + 1..], many)
                          == PassEvaluated(v, hs, many))
  {
    var rest := hs[i..];
    assert rest[0] == hs[i];
    assert rest[1..] == hs[i + 1..];
    PassUnfold(v, rest, many, data);
    var step := Pass(v, [hs[i]], many, data);
    if step.Ok? {
      calc {
        evaluated + PassEvaluated(v, [hs[i]], many) + PassEvaluated(v, hs[i + 1..], many);
        evaluated + (PassEvaluated(v, [hs[i]], many) + PassEvaluated(v, hs[i + 1..], many));
        evaluated + PassEvaluated(v, rest, many);
      }
    }
  }

  /** The names whose value source `relationships` evaluates, in order. */
  function RelEvaluatedOf(v: View, d: Declarations): seq<string> {
    var one := GatedOf(v, d.toOne);
    if Pass(v, one, false, []).Err? then PassEvaluated(v, one, false)
    else PassEvaluated(v, one, false) + PassEvaluated(v, GatedOf(v, d.toMany), true)
  }

  // ---------------------------------------------------------------- linkage properties

  /** A requested to-one relationship has `data: null` exactly when the related object is
      nil, and otherwise the id and type of the serializer found for it. */
  lemma ToOneNullIffNil(find: Finder, related: Value, options: RelOptions)
    ensures ToOneLinkage(find, related, options) == Ok(NullData) <==> related == Nil
    ensures related != Nil ==>
      match find(related, options)
      case Ok(s) => ToOneLinkage(find, related, options) == Ok(One(s.id, s.resourceType))
      case Err(e) => ToOneLinkage(find, related, options) == Err(LookupFailed(e))
  {
  }

  /** The linkage array has one entry per related object, in order, built from the
      serializer found for it; it fails iff some lookup fails. */
  lemma {:induction false} LinkagesOnePerObject(find: Finder, objects: seq<Value>, options: RelOptions, acc: seq<Entry>)
    ensures Linkages(find, objects, options, acc).Ok? <==>
              forall i :: 0 <= i < |objects| ==> find(objects[i], options).Ok?
    ensures Linkages(find, objects, options, acc).Ok? ==>
              var r := Linkages(find, objects, options, acc).value;
              && |r| == |acc| + |objects|
              && r[..|acc|] == acc
              && forall i :: 0 <= i < |objects| ==> r[|acc| + i] == EntryOf(find(objects[i], options).value)
    decreases |objects|
  {
    if objects != [] {
      forall i | 1 <= i < |objects|
        ensures find(objects[i], options) == find(objects[1..][i - 1], options)
      {
      }
      match find(objects[0], options)
      case Err(e) =>
      case Ok(s) =>
        var acc' := acc + [EntryOf(s)];
        LinkagesOnePerObject(find, objects[1..], options, acc');
        if Linkages(find, objects, options, acc).Ok? {
          var r := Linkages(find, objects, options, acc).value;
          assert r[..|acc'|][..|acc|] == r[..|acc|];
          forall i | 0 <= i < |objects|
            ensures r[|acc| + i] == EntryOf(find(objects[i], options).value)
          {
            if i == 0 {
              assert r[..|acc'|][|acc|] == r[|acc|];
            }
          }
        }
    }
  }

  /** A requested to-many relationship always has an array as `data`: one entry per related
      object, in order, with `meta` exactly when the found serializer's meta is truthy. */
  lemma ToManyOnePerObject(find: Finder, related: Value, options: RelOptions)
    requires ToManyLinkage(find, related, options).Ok?
    ensures var l := ToManyLinkage(find, related, options).value;
      && l.Many?
      && var objects := Collection(related).value;
         && |l.entries| == |objects|
         && forall i :: 0 <= i < |objects| ==>
              && find(objects[i], options).Ok?
              && var s := find(objects[i], options).value;
              && l.entries[i].id == s.id
              && l.entries[i].resourceType == s.resourceType
              && (l.entries[i].meta.Some? <==> Truthy(s.meta))
  {
    var objects := Collection(related).value;
    LinkagesOnePerObject(find, objects, options, []);
    var entries := Linkages(find, objects, options, []).value;
    assert ToManyLinkage(find, related, options).value == Many(entries);
    forall i | 0 <= i < |objects|
      ensures entries[i] == EntryOf(find(objects[i], options).value)
    {
      assert entries[0 + i] == entries[i];
    }
  }

  /** A nil, false or empty to-many value gives `data: []`, never null or absent. */
  lemma ToManyEmpty(find: Finder, related: Value, options: RelOptions)
    requires !Truthy(related) || related == List([])
    ensures ToManyLinkage(find, related, options) == Ok(Many([]))
  {
  }

  // ---------------------------------------------------------------- which relationships appear

  /** Declaration `e` makes a pass store its relationship object under `k`. */
  predicate Adds(v: View, e: (string, RelData), k: string) {
    v.Requested(e.0, e.1.options) && v.Fmt(e.0) == k
  }

  /** The keys a pass adds are the formatted names of its requested declarations. */
  lemma {:induction false} PassKeys(v: View, hs: Hash<string, RelData>, many: bool, acc: Hash<string, RelBlock>)
    requires Pass(v, hs, many, acc).Ok?
    ensures forall k :: k in Keys(Pass(v, hs, many, acc).value) <==>
              k in Keys(acc) || exists e :: e in hs && Adds(v, e, k)
    decreases |hs|
  {
    if hs != [] {
      var (name, data) := hs[0];
      var acc' := if !v.Requested(name, data.options) then acc else Put(acc, v.Fmt(name), BlockOf(v, name, data, many).value);
      PassKeys(v, hs[1..], many, acc');
      var r := Pass(v, hs, many, acc).value;
      assert r == Pass(v, hs[1..], many, acc').value;
      forall k | exists e :: e in hs && Adds(v, e, k)
        ensures k in Keys(r)
      {
        var e :| e in hs && Adds(v, e, k);
        if e != hs[0] {
          assert e in hs[1..];
        }
      }
      forall k | k in Keys(r) && k !in Keys(acc)
        ensures exists e :: e in hs && Adds(v, e, k)
      {
        if exists e :: e in hs[1..] && Adds(v, e, k) {
          var e :| e in hs[1..] && Adds(v, e, k);
          assert e in hs;
        } else {
          assert Adds(v, hs[0], k);
        }
      }
    }
  }

  /** A pass succeeds iff every requested declaration's relationship object can be built. */
  lemma {:induction false} PassSucceeds(v: View, hs: Hash<string, RelData>, many: bool, acc: Hash<string, RelBlock>)
    ensures Pass(v, hs, many, acc).Ok? <==>
              forall e :: e in hs && v.Requested(e.0, e.1.options) ==> BlockOf(v, e.0, e.1, many).Ok?
    decreases |hs|
  {
    if hs != [] {
      var (name, data) := hs[0];
      var acc' := if !v.Requested(name, data.options) then acc
                  else if BlockOf(v, name, data, many).Ok? then Put(acc, v.Fmt(name), BlockOf(v, name, data, many).value)
                  else acc;
      PassSucceeds(v, hs[1..], many, acc');
      assert hs == [hs[0]] + hs[1..];
    }
  }

  /** The declarations of one hash, or none when it is nil. */
  function DeclaredEntries(ds: Option<Hash<string, RelData>>): Hash<string, RelData> {
    match ds
    case None => []
    case Some(h) => h
  }

  /** A relationship appears in `relationships` iff it passes the sparse-fieldset gate and
      its formatted name is in `include_linkages` or it sets `include_data`;
      `include_links` alone does not make it appear. */
  lemma RelationshipAppears(v: View, d: Declarations)
    requires Distinct(Keys(DeclaredEntries(d.toOne))) && Distinct(Keys(DeclaredEntries(d.toMany)))
    requires RelationshipsOf(v, d).Ok?
    ensures forall k :: k in Keys(RelationshipsOf(v, d).value) <==>
              exists e :: (e in DeclaredEntries(d.toOne) || e in DeclaredEntries(d.toMany))
                          && v.Gate(e.0) && Adds(v, e, k)
  {
    var one := GatedOf(v, d.toOne);
    var many := GatedOf(v, d.toMany);
    assert one == GatedFrom(v, DeclaredEntries(d.toOne)) || d.toOne.None?;
    if d.toOne.Some? { GatedEntries(v, DeclaredEntries(d.toOne)); }
    if d.toMany.Some? { GatedEntries(v, DeclaredEntries(d.toMany)); }
    var h := Pass(v, one, false, []).value;
    PassKeys(v, one, false, []);
    PassKeys(v, many, true, h);
  }

  // ---------------------------------------------------------------- what a relationship holds

  /** A pass leaves the value under `k` alone when none of its requested declarations
      formats to `k`. */
  lemma {:induction false} PassUntouched(v: View, hs: Hash<string, RelData>, many: bool, acc: Hash<string, RelBlock>, k: string)
    requires Pass(v, hs, many, acc).Ok?
    requires forall e :: e in hs ==> !Adds(v, e, k)
    ensures Get(Pass(v, hs, many, acc).value, k) == Get(acc, k)
    decreases |hs|
  {
    if hs != [] {
      var (name, data) := hs[0];
      var acc' := if !v.Requested(name, data.options) then acc else Put(acc, v.Fmt(name), BlockOf(v, name, data, many).value);
      assert !Adds(v, hs[0], k) by { assert hs[0] in hs; }
      assert Get(acc', k) == Get(acc, k);
      assert Pass(v, hs, many, acc) == Pass(v, hs[1..], many, acc');
      assert forall e :: e in hs[1..] ==> e in hs;
      PassUntouched(v, hs[1..], many, acc', k);
    }
  }

  /** The relationship object a pass stores under a formatted name is the one built for
      the last requested declaration with that name: for a requested `hs[i]` whose name
      no later requested declaration reuses (other than a copy of `hs[i]` itself), that
      object can be built and is the value stored. */
  lemma {:induction false} PassValue(v: View, hs: Hash<string, RelData>, many: bool, acc: Hash<string, RelBlock>, i: nat)
    requires Pass(v, hs, many, acc).Ok?
    requires i < |hs| && v.Requested(hs[i].0, hs[i].1.options)
    requires forall j :: i < j < |hs| && Adds(v, hs[j], v.Fmt(hs[i].0)) ==> hs[j] == hs[i]
    ensures BlockOf(v, hs[i].0, hs[i].1, many).Ok?
    ensures Get(Pass(v, hs, many, acc).value, v.Fmt(hs[i].0)) == Some(BlockOf(v, hs[i].0, hs[i].1, many).value)
    decreases |hs|
  {
    var (name, data) := hs[0];
    var acc' := if !v.Requested(name, data.options) then acc else Put(acc, v.Fmt(name), BlockOf(v, name, data, many).value);
    var k := v.Fmt(hs[i].0);
    if i > 0 {
      assert hs[1..][i - 1] == hs[i];
      PassValue(v, hs[1..], many, acc', i - 1);
    } else if j :| 0 < j < |hs| && Adds(v, hs[j], k) {
      assert hs[1..][j - 1] == hs[j] == hs[0];
      PassValue(v, hs[1..], many, acc', j - 1);
    } else {
      forall e | e in hs[1..]
        ensures !Adds(v, e, k)
      {
        var j :| 0 <= j < |hs[1..]| && hs[1..][j] == e;
        assert hs[j + 1] == e;
      }
      PassUntouched(v, hs[1..], many, acc', k);
    }
  }

  /** What `relationships` stores for a requested to-one declaration: the relationship
      object built from it, provided no other gated, requested to-one declaration and no
      gated, requested to-many declaration formats to the same name. */
  lemma ToOneValue(v: View, d: Declarations, e: (string, RelData))
    requires Distinct(Keys(DeclaredEntries(d.toOne))) && Distinct(Keys(DeclaredEntries(d.toMany)))
    requires RelationshipsOf(v, d).Ok?
    requires e in DeclaredEntries(d.toOne) && v.Gate(e.0) && v.Requested(e.0, e.1.options)
    requires forall e' :: e' in DeclaredEntries(d.toOne) && v.Gate(e'.0) && Adds(v, e', v.Fmt(e.0)) ==> e' == e
    requires forall e' :: e' in DeclaredEntries(d.toMany) && v.Gate(e'.0) ==> !Adds(v, e', v.Fmt(e.0))
    ensures BlockOf(v, e.0, e.1, false).Ok?
    ensures Get(RelationshipsOf(v, d).value, v.Fmt(e.0)) == Some(BlockOf(v, e.0, e.1, false).value)
  {
    var one := GatedOf(v, d.toOne);
    var many := GatedOf(v, d.toMany);
    if d.toOne.Some? { GatedEntries(v, DeclaredEntries(d.toOne)); }
    if d.toMany.Some? { GatedEntries(v, DeclaredEntries(d.toMany)); }
    assert e in one;
    var i :| 0 <= i < |one| && one[i] == e;
    forall j | i < j < |one| && Adds(v, one[j], v.Fmt(e.0))
      ensures one[j] == e
    {
      assert one[j] in one;
    }
    PassValue(v, one, false, [], i);
    PassUntouched(v, many, true, Pass(v, one, false, []).value, v.Fmt(e.0));
  }

  /** What `relationships` stores for a requested to-many declaration: the relationship
      object built from it, provided no other gated, requested to-many declaration
      formats to the same name; a to-one relationship of that name is overwritten. */
  lemma ToManyValue(v: View, d: Declarations, e: (string, RelData))
    requires Distinct(Keys(DeclaredEntries(d.toOne))) && Distinct(Keys(DeclaredEntries(d.toMany)))
    requires RelationshipsOf(v, d).Ok?
    requires e in DeclaredEntries(d.toMany) && v.Gate(e.0) && v.Requested(e.0, e.1.options)
    requires forall e' :: e' in DeclaredEntries(d.toMany) && v.Gate(e'.0) && Adds(v, e', v.Fmt(e.0)) ==> e' == e
    ensures BlockOf(v, e.0, e.1, true).Ok?
    ensures Get(RelationshipsOf(v, d).value, v.Fmt(e.0)) == Some(BlockOf(v, e.0, e.1, true).value)
  {
    var many := GatedOf(v, d.toMany);
    if d.toMany.Some? { GatedEntries(v, DeclaredEntries(d.toMany)); }
    assert e in many;
    var i :| 0 <= i < |many| && many[i] == e;
    forall j | i < j < |many| && Adds(v, many[j], v.Fmt(e.0))
      ensures many[j] == e
    {
      assert many[j] in many;
    }
    PassValue(v, many, true, Pass(v, GatedOf(v, d.toOne), false, []).value, i);
  }

  // ---------------------------------------------------------------- which value sources run

  /** A loop runs the value source only of requested declarations, and, when it completes,
      of every one of them. */
  lemma {:induction false} PassEvaluatedRequested(v: View, hs: Hash<string, RelData>, many: bool, acc: Hash<string, RelBlock>)
    ensures forall n :: n in PassEvaluated(v, hs, many) ==>
              exists e :: e in hs && v.Requested(e.0, e.1.options) && e.0 == n
    ensures Pass(v, hs, many, acc).Ok? ==>
              forall e :: e in hs && v.Requested(e.0, e.1.options) ==> e.0 in PassEvaluated(v, hs, many)
    decreases |hs|
  {
    if hs != [] {
      PassUnfold(v, hs, many, acc);
      var step := Pass(v, [hs[0]], many, acc);
      var acc' := if step.Ok? then step.value else acc;
      PassEvaluatedRequested(v, hs[1..], many, acc');
      assert hs == [hs[0]] + hs[1..];
    }
  }

  /** `relationships` runs the value source of a relationship only when it passes the
      gate and its linkage is requested (its formatted name is in `include_linkages` or
      it sets `include_data`), so `include_links` alone never runs it; when the call
      succeeds, every such relationship's source has run. `find_serializer` only ever
      sees values these sources return. */
  lemma RelationshipEvaluated(v: View, d: Declarations)
    requires Distinct(Keys(DeclaredEntries(d.toOne))) && Distinct(Keys(DeclaredEntries(d.toMany)))
    ensures forall n :: n in RelEvaluatedOf(v, d) ==>
              exists e :: (e in DeclaredEntries(d.toOne) || e in DeclaredEntries(d.toMany))
                          && v.Gate(e.0) && v.Requested(e.0, e.1.options) && e.0 == n
    ensures RelationshipsOf(v, d).Ok? ==>
              forall n :: n in RelEvaluatedOf(v, d) <==>
                exists e :: (e in DeclaredEntries(d.toOne) || e in DeclaredEntries(d.toMany))
                            && v.Gate(e.0) && v.Requested(e.0, e.1.options) && e.0 == n
  {
    var one := GatedOf(v, d.toOne);
    var many := GatedOf(v, d.toMany);
    if d.toOne.Some? { GatedEntries(v, DeclaredEntries(d.toOne)); }
    if d.toMany.Some? { GatedEntries(v, DeclaredEntries(d.toMany)); }
    PassEvaluatedRequested(v, one, false, []);
    if Pass(v, one, false, []).Ok? {
      PassEvaluatedRequested(v, many, true, Pass(v, one, false, []).value);
    }
  }
}
