# jsonapi-serializers: resource serialization core, in Dafny

This project models the per-resource part of the `jsonapi-serializers` Ruby gem and
proves properties of it. That part is `JSONAPI::Serializer::InstanceMethods`. Given one
domain object and the options `context`, `base_url`, `fields` and `include_linkages`, it
computes four things:

- the resource `id`: the object's id as a string;
- the `type`: memoized per class name;
- the `attributes`: filtered by the sparse fieldset (the "Sparse Fieldsets" rule of the
  "Fetching Data" section of JSON:API 1.0);
- the `relationships`: to-one and to-many objects with optional `links` and resource
  linkage `data`. Linkage follows the "Resource Linkage" rules of JSON:API 1.0: `null`
  for an empty to-one relationship and `[]` for an empty to-many one.

The project also models `JSONAPI::DynamicProxyObject`. It is a delegation proxy that
memoizes each forwarded call in a per-instance `@cache`.

Files:

- `common.dfy`: `Option`, `Result`, the Ruby values the core inspects, and Ruby truthiness.
- `ordered_hash.dfy`: a Ruby `Hash`. Keys are kept in insertion order, and assigning to an
  existing key replaces its value in place.
- `decimal.dfy`: `Integer#to_s` and its inverse, used for `id`.
- `name_memo.dfy`: the three class-level memo hashes (`@@class_names`,
  `@@formatted_attribute_names`, `@@unformatted_attribute_names`). Class `NameTables`
  holds them. Each entry is written with `||=`.
- `resource.dfy`: the specification. `View` is a snapshot of a serializer: its instance
  variables, the memo tables and the collaborators. `AttributesOf` and `RelationshipsOf`
  give what the serializer computes from a snapshot. The lemmas state the sparse-fieldset,
  linkage and link rules.
- `serializer.dfy`: class `ResourceSerializer`. Its methods build the hashes in loops and
  write the memo tables, as the Ruby does. Each one is proved to return exactly what
  `resource.dfy` specifies for any earlier snapshot `v` of the same serializer. This holds
  because the tables only gain entries that the current configuration would compute
  anyway (`Grows`).
- `proxy.dfy`: classes `Target` and `DynamicProxyObject`. The pure function `Dispatch`
  models one `method_missing` call, and `Run` models a series of calls.

The model takes these collaborators as inputs (`Env`, `Inflector`):

- the declaration hashes of the serializer class;
- `find_serializer`, as a function from the related object and the relationship's options
  to an `{id, type, meta}` triple or a lookup error;
- `transform_key_casing`, `demodulize.tableize` and `underscore`, as uninterpreted string
  functions;
- the evaluation of declared blocks.

`self_link` always returns a string, so `links.self` and both relationship links are
always emitted, and a nil `base_url` becomes an empty prefix (`ResourceLinks`,
`SelfLinkWithoutBaseUrl`).

## Model

| member | source | states |
|---|---|---|
| `Serializer.ResourceSerializer.constructor` | lib/jsonapi-serializers/serializer/instance_methods.rb:12-21 | a missing `context` or `fields` defaults to `{}`, missing `include_linkages` to `[]`; `base_url` is taken as given (possibly nil) |
| `Serializer.ResourceSerializer.Id` | lib/jsonapi-serializers/serializer/instance_methods.rb:25-27 | `id` is the string form of the object's id: an integer id reads back as the same integer, a string id is itself, nil gives "" |
| `Decimal.IntRoundTrip` | lib/jsonapi-serializers/serializer/instance_methods.rb:25-27 | parsing what `Integer#to_s` prints returns the original integer, so the string id identifies the integer id |
| `NameMemo.NameTables.constructor` | lib/jsonapi-serializers/serializer/instance_methods.rb:4-6 | the three memo hashes start empty |
| `NameMemo.NameTables.Reset` | spec/support/config_helper.rb:19-23 | resetting replaces all three tables by empty hashes |
| `NameMemo.NameTables.Type` | lib/jsonapi-serializers/serializer/instance_methods.rb:33-36 | returns the stored type for the class name if present, otherwise stores and returns `transform_key_casing(tableize(class))`; only that key of `@@class_names` can change |
| `NameMemo.NameTables.FormatName` | lib/jsonapi-serializers/serializer/instance_methods.rb:41-44 | returns the stored name if present, otherwise stores and returns `transform_key_casing(name)`; only that key of the formatted table can change |
| `NameMemo.NameTables.UnformatName` | lib/jsonapi-serializers/serializer/instance_methods.rb:47-50 | returns the stored name if present, otherwise stores and returns `underscore(name)`; only that key of the unformatted table can change |
| `NameMemo.StoredNameIsStale` | lib/jsonapi-serializers/serializer/instance_methods.rb:43 | once a name is stored, a later call returns it even when the configuration now computes something else |
| `NameMemo.ReplayKeepsFirstWrite` | lib/jsonapi-serializers/serializer/instance_methods.rb:33-50 | after any series of `||=` calls under any configurations, a key holds its earlier value or the value of the first call that wrote it; untouched keys stay absent |
| `NameMemo.GrowsKeepsNames` | lib/jsonapi-serializers/serializer/instance_methods.rb:33-50 | tables that only gained entries computed by the current configuration resolve every type, formatted and unformatted name as before |
| `Serializer.ResourceSerializer.Type` | lib/jsonapi-serializers/serializer/instance_methods.rb:33-36 | `type` is the memoized type of the object's class name; writes `@@class_names` only when the key is absent |
| `Serializer.ResourceSerializer.FormatName` | lib/jsonapi-serializers/serializer/instance_methods.rb:41-44 | `format_name` is the memoized formatted name; writes only when the key is absent |
| `Serializer.ResourceSerializer.UnformatName` | lib/jsonapi-serializers/serializer/instance_methods.rb:47-50 | `unformat_name` is the memoized underscored name; writes only when the key is absent |
| `Serializer.ResourceSerializer.SelfLink` | lib/jsonapi-serializers/serializer/instance_methods.rb:65-67 | `self_link` is base URL (or "") + "/" + type + "/" + id |
| `Resource.SelfLinkWithoutBaseUrl` | lib/jsonapi-serializers/serializer/instance_methods.rb:61-67 | with a nil base URL the self link is still produced, as "/type/id" |
| `Resource.ResourceLinks` | lib/jsonapi-serializers/serializer/instance_methods.rb:77-81 | `links` has exactly the key `self`, whose value is the self link |
| `Serializer.ResourceSerializer.Links` | lib/jsonapi-serializers/serializer/instance_methods.rb:77-81 | the method builds exactly `ResourceLinks` |
| `Serializer.ResourceSerializer.RelationshipSelfLink` | lib/jsonapi-serializers/serializer/instance_methods.rb:69-71 | self link + "/relationships/" + formatted name |
| `Serializer.ResourceSerializer.RelationshipRelatedLink` | lib/jsonapi-serializers/serializer/instance_methods.rb:73-75 | self link + "/" + formatted name |
| `Resource.RelationshipLinksShape` | lib/jsonapi-serializers/serializer/instance_methods.rb:69-75 | both relationship links extend the resource's self link, and they never coincide |
| `Serializer.ResourceSerializer.RelationshipLinks` | lib/jsonapi-serializers/serializer/instance_methods.rb:91-98 | a relationship gets `links` with both `self` and `related` (never nil) exactly when `include_links` is set |
| `Serializer.ResourceSerializer.ShouldIncludeAttr` | lib/jsonapi-serializers/serializer/instance_methods.rb:198-203 | true when `fields` has no entry for the type, otherwise true iff the formatted name is in that entry |
| `Serializer.ResourceSerializer.EvaluateAttrOrBlock` | lib/jsonapi-serializers/serializer/instance_methods.rb:205-213 | a method-name source sends that method to the object; a block source runs the block with the object and context in scope |
| `Serializer.ResourceSerializer.Attributes` | lib/jsonapi-serializers/serializer/instance_methods.rb:154-164 | the loop builds exactly `AttributesOf` (`{}` when no attributes are declared), and runs the value source of exactly the attributes that pass the gate, in order |
| `Resource.AttributesKeys` | lib/jsonapi-serializers/serializer/instance_methods.rb:154-164 | a key is in `attributes` iff it is the formatted name of a declared attribute that passes the sparse-fieldset gate |
| `Resource.AttributesKeyOrder` | lib/jsonapi-serializers/serializer/instance_methods.rb:158-161 | when those formatted names are distinct, the keys are exactly them, in declaration order |
| `Resource.AttributesValue` | lib/jsonapi-serializers/serializer/instance_methods.rb:160-161 | the value under a formatted name is the value of the last gated declaration with that name |
| `Resource.OnlyGatedAttributesEvaluated` | lib/jsonapi-serializers/serializer/instance_methods.rb:159-160 | an attribute's value source is evaluated iff the attribute is declared and passes the gate |
| `Resource.SparseFieldsetExample` | lib/jsonapi-serializers/serializer/instance_methods.rb:154-164 | with fields `{type: [name]}` and attributes name, age, email, only `name` remains |
| `Serializer.ResourceSerializer.GatedDeclarations` | lib/jsonapi-serializers/serializer/instance_methods.rb:166-190 | the gated copy of a declaration hash (`{}` when it is nil) |
| `Serializer.ResourceSerializer.HasOneRelationships` | lib/jsonapi-serializers/serializer/instance_methods.rb:166-175 | the to-one declarations that pass the gate, keyed by name |
| `Serializer.ResourceSerializer.HasManyRelationships` | lib/jsonapi-serializers/serializer/instance_methods.rb:181-190 | the to-many declarations that pass the gate, keyed by name |
| `Resource.GatedEntries` | lib/jsonapi-serializers/serializer/instance_methods.rb:166-190 | for a declaration hash, the gated copy holds exactly the declarations that pass the gate |
| `Resource.ToOneNullIffNil` | lib/jsonapi-serializers/serializer/instance_methods.rb:102-114 | to-one `data` is `null` iff the related object is nil; otherwise it is the id and type of the found serializer, or the lookup's error |
| `Serializer.HasManyLinkage` | lib/jsonapi-serializers/serializer/instance_methods.rb:138-148 | the to-many loop computes exactly `ToManyLinkage`: `[]` for nil, an entry per object, and the first lookup failure aborts |
| `Resource.LinkagesOnePerObject` | lib/jsonapi-serializers/serializer/instance_methods.rb:140-148 | the linkage array has one entry per related object, in iteration order, from that object's lookup; it fails iff some lookup fails |
| `Resource.ToManyOnePerObject` | lib/jsonapi-serializers/serializer/instance_methods.rb:138-148 | to-many `data` is always an array with one `{id, type}` per related object; `meta` is present iff the lookup's meta is truthy |
| `Resource.ToManyEmpty` | lib/jsonapi-serializers/serializer/instance_methods.rb:133-139 | a nil, false or empty collection gives `data: []`, never null or absent |
| `Serializer.ResourceSerializer.RelationshipStep` | lib/jsonapi-serializers/serializer/instance_methods.rb:86-150 | one iteration: skip unless linkage is requested or `include_data` is set, otherwise run the value source (recorded in `evaluated`) and store the relationship object under the formatted name |
| `Serializer.ResourceSerializer.Relationships` | lib/jsonapi-serializers/serializer/instance_methods.rb:83-152 | the two loops build exactly `RelationshipsOf`: to-one first, then to-many into the same hash; any error aborts the whole call; the value sources run are exactly `RelEvaluatedOf` |
| `Serializer.ResourceSerializer.RelationshipLoop` | lib/jsonapi-serializers/serializer/instance_methods.rb:86-150 | either `each` loop builds exactly `Pass` from the hash so far, and runs the value sources `PassEvaluated` lists: requested declarations only, in order, up to the first failure |
| `Resource.PassKeys` | lib/jsonapi-serializers/serializer/instance_methods.rb:86-150 | a loop adds exactly the formatted names of the declarations whose linkage is requested or whose `include_data` is set |
| `Resource.PassSucceeds` | lib/jsonapi-serializers/serializer/instance_methods.rb:86-150 | a loop succeeds iff the relationship object of every requested declaration can be built |
| `Resource.RelationshipAppears` | lib/jsonapi-serializers/serializer/instance_methods.rb:83-152 | a relationship appears iff it passes the gate and either its formatted name is in `include_linkages` or `include_data` is set; `include_links` alone never makes it appear |
| `Resource.PassUntouched` | lib/jsonapi-serializers/serializer/instance_methods.rb:86-150 | a loop never changes the value under a key that none of its requested declarations formats to |
| `Resource.PassValue` | lib/jsonapi-serializers/serializer/instance_methods.rb:86-150 | under a formatted name a loop stores the relationship object of the last requested declaration with that name, and that object can be built |
| `Resource.ToOneValue` | lib/jsonapi-serializers/serializer/instance_methods.rb:86-115 | a requested to-one relationship, unshadowed by another with the same formatted name, holds its `links` (when asked for) and `data` (`null` or the found `{id, type}`) |
| `Resource.ToManyValue` | lib/jsonapi-serializers/serializer/instance_methods.rb:118-150 | a requested to-many relationship, unshadowed by another to-many one, holds its `links` (when asked for) and its linkage array, and overwrites a to-one relationship of the same formatted name |
| `Resource.PassEvaluatedRequested` | lib/jsonapi-serializers/serializer/instance_methods.rb:101-139 | a loop runs the value source only of requested declarations (the `next unless` comes first), and of all of them when it completes |
| `Resource.RelationshipEvaluated` | lib/jsonapi-serializers/serializer/instance_methods.rb:83-152 | `relationships` runs a relationship's value source (and so calls `find_serializer` on its value) only when it passes the gate and is requested; `include_links` alone never runs it; on success every such source has run |
| `OrderedHash.Put` | lib/jsonapi-serializers/serializer/instance_methods.rb:115 | hash assignment: the key maps to the new value, other keys keep theirs, and a new key is appended at the end |
| `Proxy.DynamicProxyObject.constructor` | lib/jsonapi-serializers/dynamic_proxy_object.rb:3-6 | a new proxy has an empty cache and holds the given target |
| `Proxy.DynamicProxyObject.Class` | lib/jsonapi-serializers/dynamic_proxy_object.rb:8-10 | `class` reports the target's class, not the proxy's |
| `Proxy.DynamicProxyObject.CacheKeyOf` | lib/jsonapi-serializers/dynamic_proxy_object.rb:12-14 | the key is determined by the method name and the arguments |
| `Proxy.Dispatch` | lib/jsonapi-serializers/dynamic_proxy_object.rb:16-20 | forwards iff the key is not cached truthily, then stores the target's answer under that key; returns the stored value; no other entry changes |
| `Proxy.DynamicProxyObject.MethodMissing` | lib/jsonapi-serializers/dynamic_proxy_object.rb:16-20 | the new cache and the result are those of `Dispatch`; the target receives the call exactly once on a miss and not at all on a hit |
| `Proxy.DispatchKeepsHits` | lib/jsonapi-serializers/dynamic_proxy_object.rb:17-18 | a call never loses a cached entry, and a truthy answer is cached under its own key |
| `Proxy.RepeatIsCached` | lib/jsonapi-serializers/dynamic_proxy_object.rb:18-19 | after a truthy result, the identical call is answered from the cache without invoking the target, whatever the target would now answer |
| `Proxy.FalsyIsForwardedAgain` | lib/jsonapi-serializers/dynamic_proxy_object.rb:18 | a nil or false result is never reused: the identical next call reaches the target again |
| `Proxy.DistinctArgumentsDistinctKeys` | lib/jsonapi-serializers/dynamic_proxy_object.rb:12-14 | calls with different arguments use different cache entries |
| `Proxy.RunIsTransparent` | lib/jsonapi-serializers/dynamic_proxy_object.rb:16-20 | for a deterministic target and a cache that agrees with it, every call in any series returns what the target would answer |
| `Proxy.RunForwardsEachCallOnce` | lib/jsonapi-serializers/dynamic_proxy_object.rb:16-20 | with truthy answers, the target sees each distinct call at most once, and only calls that were not already cached |
| `Proxy.RepeatedCallsExample` | spec/dynamic_proxy_object_spec.rb:2-12 | `foo`, `foo`, `foo(args)`, `foo(args)` reach the target as exactly `foo` then `foo(args)` |

## Left out

- Serializer.ResourceSerializer.SelfLink: the memo effect is stated as growth of the tables (`Grows`), not as the exact new `@@class_names`.
- Serializer.ResourceSerializer.RelationshipSelfLink: the memo effect is stated as `Grows`, not as exact new tables.
- Serializer.ResourceSerializer.RelationshipRelatedLink: the memo effect is stated as `Grows`, not as exact new tables.
- Serializer.ResourceSerializer.Links: the memo effect is stated as `Grows`, not as exact new tables.
- Serializer.ResourceSerializer.ShouldIncludeAttr: the memo effect is stated as `Grows`, not as exact new tables.
- Serializer.ResourceSerializer.Attributes: the memo effect is stated as `Grows`. Which names get written depends on whether a fieldset entry exists.
- Serializer.ResourceSerializer.GatedDeclarations: the memo effect is stated as `Grows`, not as exact new tables.
- Serializer.ResourceSerializer.HasOneRelationships: the memo effect is stated as `Grows`, not as exact new tables.
- Serializer.ResourceSerializer.HasManyRelationships: the memo effect is stated as `Grows`, not as exact new tables.
- Serializer.ResourceSerializer.RelationshipLinks: the memo effect is stated as `Grows`, not as exact new tables.
- Serializer.ResourceSerializer.RelationshipStep: the memo effect is stated as `Grows`, not as exact new tables.
- Serializer.ResourceSerializer.RelationshipLoop: the memo effect is stated as `Grows`, not as exact new tables.
- Serializer.ResourceSerializer.Relationships: the memo effect is stated as `Grows`, not as exact new tables.
- ActiveSupport inflection (`demodulize`, `tableize`, `underscore`) and `transform_key_casing` are uninterpreted string functions. Their source is not part of this model. So `unformat_name(format_name(x)) == x` is not claimed.
- `find_serializer` is an abstract function of the related object and the relationship's options. Its `AmbiguousCollectionError`/`InvalidIncludeError` failures are modelled as error results that abort `relationships`. The `id`/`type` of the found serializer are taken as given, so its own memo writes are not modelled.
- A truthy to-many value without `each` raises `NoMethodError` in Ruby. It is modelled as the error `NotEnumerable`. Failures raised inside user methods and blocks are not modelled: evaluation is a total function. Failures of the proxy's target are not modelled either: in Ruby an exception raised by `@target.send` inside `method_missing` propagates and leaves `@cache` unchanged, while the model's `Target.respond` is total.
- The declaration DSL (`class_methods.rb`, `attributes.rb`) is not part of this model. The declaration hashes are inputs. Relationship options other than `include_links` and `include_data` are not modelled.
- Ruby dynamic dispatch (`instance_eval`, `object.send`) is modelled as a tagged value source. The `BasicObject`/`method_missing` interception is modelled as an explicit `MethodMissing` call.
- Proxy.DynamicProxyObject.CacheKeyOf: the real key is the string `"#{name}_#{args.hash}"`. The model uses an injective (name, arguments) key, so `Object#hash` collisions are not modelled. The block argument is forwarded in Ruby but is not part of the key; the model has no block argument.
- Symbols and strings are not distinguished. Fieldset entries are modelled as names, so a fieldset given as strings rather than symbols (which never matches in Ruby) is not modelled. The `fields` hash is looked up by the type string.
- Writers of the `attr_accessor`s (`object=`, `context=`, `base_url=`) are not modelled. A serializer's object, context and base URL stay fixed after construction.
- Only integer, string and nil ids are modelled for `to_s`.
- Thread safety of the class-level tables and of configuration switching is not modelled. Calls are sequential.
- The `jsonapi` and `meta` hooks (empty override points), JSON encoding, and the top-level document assembly are not modelled.
