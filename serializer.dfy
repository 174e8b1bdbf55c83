/** The serializer instance (`JSONAPI::Serializer::InstanceMethods`): it builds the
    attributes and relationships hashes step by step and writes the shared memo tables
    as it goes. Every method is proved to return what module Resource specifies for a
    snapshot `v` of the serializer taken at any earlier moment: the memo tables only gain
    entries the configuration would compute anyway, so the answer does not depend on
    which snapshot. */
module Serializer {
  import opened Common
  import opened OrderedHash
  import opened NameMemo
  import opened Resource
  import Decimal

  /** The to-many linkage loop of `relationships`: one entry per related object, with
      `meta` only when the found serializer's meta is truthy; the first failed lookup
      aborts. */
  method HasManyLinkage(find: Finder, related: Value, options: RelOptions) returns (r: Result<Linkage, Error>)
    ensures r == ToManyLinkage(find, related, options)
  {
    var objects: seq<Value>;
    if !Truthy(related) {
      objects := [];
    } else if related.List? {
      objects := related.items;
    } else {
      return Err(NotEnumerable(related));
    }
    var entries: seq<Entry> := [];
    var i := 0;
    while i < |objects|
      invariant 0 <= i <= |objects|
      invariant Linkages(find, objects[i..], options, entries) == Linkages(find, objects, options, [])
    {
      var found := find(objects[i], options);
      if found.Err? {
        return Err(LookupFailed(found.error));
      }
      var entry := Entry(found.value.id, found.value.resourceType, None);
      if Truthy(found.value.meta) {
        entry := entry.(meta := Some(found.value.meta));
      }
      assert objects[i..][1..] == objects[i + 1..];
      entries := entries + [entry];
      i := i + 1;
    }
    return Ok(Many(entries));
  }

  class ResourceSerializer {
    var obj: DomainObject
    var context: map<string, Value>
    var baseUrl: Option<string>
    const options: Options
    const fields: map<string, seq<string>>
    const includeLinkages: seq<string>
    /** The declaration hashes of the serializer's class. */
    const declarations: Declarations
    /** The class-level memo hashes, shared with every other serializer. */
    const tables: NameTables

    function ViewAt(env: Env): View
      reads this, tables
    {
      View(obj, context, baseUrl, fields, includeLinkages, tables.Snapshot(), env)
    }

    /** `v` is this serializer as it was at some moment of the current naming configuration. */
    ghost predicate Describes(v: View, env: Env)
      reads this, tables
    {
      && v.obj == obj && v.context == context && v.baseUrl == baseUrl
      && v.fields == fields && v.includeLinkages == includeLinkages && v.env == env
      && Grows(v.tables, tables.Snapshot(), env.inflector)
    }

    lemma DescribesNow(env: Env)
      ensures Describes(ViewAt(env), env)
    {
      GrowsReflexive(tables.Snapshot(), env.inflector);
    }

    /** `initialize`: a missing context, fieldset or linkage list defaults to empty. */
    constructor (obj: DomainObject, options: Options, declarations: Declarations, tables: NameTables)
      ensures this.obj == obj && this.options == options
      ensures context == options.context.GetOr(map[])
      ensures baseUrl == options.baseUrl
      ensures fields == options.fields.GetOr(map[])
      ensures includeLinkages == options.includeLinkages.GetOr([])
      ensures this.declarations == declarations && this.tables == tables
    {
      this.obj := obj;
      this.options := options;
      this.context := options.context.GetOr(map[]);
      this.baseUrl := options.baseUrl;
      this.fields := options.fields.GetOr(map[]);
      this.includeLinkages := options.includeLinkages.GetOr([]);
      this.declarations := declarations;
      this.tables := tables;
    }

    /** `id`: the object's id as a string; an integer id reads back as the same integer. */
    function Id(): (s: string)
      reads this
      ensures obj.id.IntId? ==> Decimal.ParseInt(s) == Some(obj.id.n)
      ensures obj.id.StrId? ==> s == obj.id.s
      ensures obj.id.NilId? ==> s == ""
    {
      if obj.id.IntId? then Decimal.IntRoundTrip(obj.id.n); IdString(obj.id) else IdString(obj.id)
    }

    /** `type`: memoized per class name. */
    method Type(env: Env, ghost v: View) returns (t: string)
      requires Describes(v, env)
      modifies tables
      ensures Describes(v, env)
      ensures t == v.TypeName()
      ensures tables.classNames == Remember(old(tables.classNames), obj.className, FreshType(env.inflector, obj.className))
      ensures tables.formatted == old(tables.formatted) && tables.unformatted == old(tables.unformatted)
    {
      GrowsKeepsNames(v.tables, tables.Snapshot(), env.inflector);
      ghost var before := tables.Snapshot();
      t := tables.Type(obj.className, env.inflector);
      GrowsTransitive(v.tables, before, tables.Snapshot(), env.inflector);
    }

    /** `format_name`: memoized per name. */
    method FormatName(name: string, env: Env, ghost v: View) returns (f: string)
      requires Describes(v, env)
      modifies tables
      ensures Describes(v, env)
      ensures f == v.Fmt(name)
      ensures tables.formatted == Remember(old(tables.formatted), name, FreshFormat(env.inflector, name))
      ensures tables.classNames == old(tables.classNames) && tables.unformatted == old(tables.unformatted)
    {
      GrowsKeepsNames(v.tables, tables.Snapshot(), env.inflector);
      ghost var before := tables.Snapshot();
      f := tables.FormatName(name, env.inflector);
      GrowsTransitive(v.tables, before, tables.Snapshot(), env.inflector);
    }

    /** `unformat_name`: memoized per name. */
    method UnformatName(name: string, env: Env, ghost v: View) returns (u: string)
      requires Describes(v, env)
      modifies tables
      ensures Describes(v, env)
      ensures u == v.tables.UnformatOf(env.inflector, name)
      ensures tables.unformatted == Remember(old(tables.unformatted), name, FreshUnformat(env.inflector, name))
      ensures tables.classNames == old(tables.classNames) && tables.formatted == old(tables.formatted)
    {
      GrowsKeepsNames(v.tables, tables.Snapshot(), env.inflector);
      ghost var before := tables.Snapshot();
      u := tables.UnformatName(name, env.inflector);
      GrowsTransitive(v.tables, before, tables.Snapshot(), env.inflector);
    }

    /** `self_link`: always a string, with an empty prefix when there is no base URL. */
    method SelfLink(env: Env, ghost v: View) returns (link: string)
      requires Describes(v, env)
      modifies tables
      ensures Describes(v, env)
      ensures link == v.SelfLink()
      ensures tables.formatted == old(tables.formatted) && tables.unformatted == old(tables.unformatted)
    {
      var t := Type(env, v);
      link := BaseString(baseUrl) + "/" + t + "/" + Id();
    }

    method RelationshipSelfLink(name: string, env: Env, ghost v: View) returns (link: string)
      requires Describes(v, env)
      modifies tables
      ensures Describes(v, env)
      ensures link == v.RelationshipSelfLink(name)
      ensures tables.unformatted == old(tables.unformatted)
    {
      var s := SelfLink(env, v);
      var f := FormatName(name, env, v);
      link := s + "/relationships/" + f;
    }

    method RelationshipRelatedLink(name: string, env: Env, ghost v: View) returns (link: string)
      requires Describes(v, env)
      modifies tables
      ensures Describes(v, env)
      ensures link == v.RelationshipRelatedLink(name)
      ensures tables.unformatted == old(tables.unformatted)
    {
      var s := SelfLink(env, v);
      var f := FormatName(name, env, v);
      link := s + "/" + f;
    }

    /** `links`: `self` is always present, since `self_link` is never nil. */
    method Links(env: Env, ghost v: View) returns (links: Hash<string, string>)
      requires Describes(v, env)
      modifies tables
      ensures Describes(v, env)
      ensures links == ResourceLinks(v)
      ensures tables.formatted == old(tables.formatted) && tables.unformatted == old(tables.unformatted)
    {
      links := [];
      var s := SelfLink(env, v);
      links := Put(links, "self", s);
    }

    /** `should_include_attr?`: the sparse-fieldset gate. */
    method ShouldIncludeAttr(name: string, env: Env, ghost v: View) returns (show: bool)
      requires Describes(v, env)
      modifies tables
      ensures Describes(v, env)
      ensures show == v.Gate(name)
      ensures tables.unformatted == old(tables.unformatted)
    {
      show := true;
      var t := Type(env, v);
      if t in fields {
        var f := FormatName(name, env, v);
        show := show && f in fields[t];
      }
    }

    /** `evaluate_attr_or_block`. */
    function EvaluateAttrOrBlock(env: Env, source: ValueSource): (value: Value)
      reads this
      ensures source.MethodName? ==> value == obj.send(source.name)
      ensures source.Block? ==> value == env.runBlock(source.tag, obj, context)
    {
      Evaluate(env, obj, context, source)
    }

    /** `attributes`; `evaluated` records, in order, the attributes whose value source was run. */
    method Attributes(env: Env, ghost v: View) returns (attrs: Hash<string, Value>, ghost evaluated: seq<string>)
      requires Describes(v, env)
      modifies tables
      ensures Describes(v, env)
      ensures attrs == AttributesOf(v, declarations.attributes)
      ensures evaluated == EvaluatedOf(v, declarations.attributes)
      ensures tables.unformatted == old(tables.unformatted)
    {
      attrs, evaluated := [], [];
      if declarations.attributes.None? {
        return;
      }
      var ds := declarations.attributes.value;
      var i := 0;
      while i < |ds|
        invariant 0 <= i <= |ds|
        invariant Describes(v, env)
        invariant attrs == AttributesFrom(v, ds[..i])
        invariant evaluated == EvaluatedFrom(v, ds[..i])
        invariant tables.unformatted == old(tables.unformatted)
      {
        var (name, source) := ds[i];
        AttributesStep(v, ds, i);
        var show := ShouldIncludeAttr(name, env, v);
        if show {
          var value := EvaluateAttrOrBlock(env, source);
          assert value == v.Eval(source);
          evaluated := evaluated + [name];
          var key := FormatName(name, env, v);
          attrs := Put(attrs, key, value);
        }
        i := i + 1;
      }
      assert ds[..|ds|] == ds;
    }

    /** The gated copy of one declaration hash, shared by `has_one_relationships` and
        `has_many_relationships`. */
    method GatedDeclarations(ds: Option<Hash<string, RelData>>, env: Env, ghost v: View) returns (h: Hash<string, RelData>)
      requires Describes(v, env)
      modifies tables
      ensures Describes(v, env)
      ensures h == GatedOf(v, ds)
      ensures tables.unformatted == old(tables.unformatted)
    {
      h := [];
      if ds.None? {
        return;
      }
      var d := ds.value;
      var i := 0;
      while i < |d|
        invariant 0 <= i <= |d|
        invariant Describes(v, env)
        invariant h == GatedFrom(v, d[..i])
        invariant tables.unformatted == old(tables.unformatted)
      {
        var (name, data) := d[i];
        GatedStep(v, d, i);
        var show := ShouldIncludeAttr(name, env, v);
        if show {
          h := Put(h, name, data);
        }
        i := i + 1;
      }
      assert d[..|d|] == d;
    }

    /** `has_one_relationships`. */
    method HasOneRelationships(env: Env, ghost v: View) returns (h: Hash<string, RelData>)
      requires Describes(v, env)
      modifies tables
      ensures Describes(v, env)
      ensures h == GatedOf(v, declarations.toOne)
      ensures tables.unformatted == old(tables.unformatted)
    {
      h := GatedDeclarations(declarations.toOne, env, v);
    }

    /** `has_many_relationships`. */
    method HasManyRelationships(env: Env, ghost v: View) returns (h: Hash<string, RelData>)
      requires Describes(v, env)
      modifies tables
      ensures Describes(v, env)
      ensures h == GatedOf(v, declarations.toMany)
      ensures tables.unformatted == old(tables.unformatted)
    {
      h := GatedDeclarations(declarations.toMany, env, v);
    }

    /** The `links` block of one relationship, present when `include_links` is set. */
    method RelationshipLinks(name: string, relOptions: RelOptions, env: Env, ghost v: View) returns (links: Option<RelLinks>)
      requires Describes(v, env)
      modifies tables
      ensures Describes(v, env)
      ensures links == LinksFor(v, name, relOptions)
      ensures tables.unformatted == old(tables.unformatted)
    {
      links := None;
      if relOptions.includeLinks {
        var linksSelf := RelationshipSelfLink(name, env, v);
        var linksRelated := RelationshipRelatedLink(name, env, v);
        links := Some(RelLinks(linksSelf, linksRelated));
      }
    }

    /** One iteration of either loop of `relationships`; `evaluated` records the
        relationship when its value source is run. */
    method RelationshipStep(name: string, data: RelData, many: bool, acc: Hash<string, RelBlock>, env: Env, ghost v: View)
      returns (r: Result<Hash<string, RelBlock>, Error>, ghost evaluated: seq<string>)
      requires Describes(v, env)
      modifies tables
      ensures Describes(v, env)
      ensures r == Pass(v, [(name, data)], many, acc)
      ensures evaluated == PassEvaluated(v, [(name, data)], many)
      ensures tables.unformatted == old(tables.unformatted)
    {
      evaluated := [];
      var key := FormatName(name, env, v);
      var links := RelationshipLinks(name, data.options, env, v);
      if !(key in includeLinkages || data.options.includeData) {
        return Ok(acc), evaluated;
      }
      var related := EvaluateAttrOrBlock(env, data.source);
      evaluated := [name];
      var linkage: Result<Linkage, Error>;
      if many {
        linkage := HasManyLinkage(env.findSerializer, related, data.options);
      } else {
        linkage := ToOneLinkage(env.findSerializer, related, data.options);
      }
      if linkage.Err? {
        return Err(linkage.error), evaluated;
      }
      return Ok(Put(acc, key, RelBlock(links, linkage.value))), evaluated;
    }

    /** One of the two loops of `relationships`, over the gated declarations `hs`, into the
        hash `acc` built so far; `evaluated` records, in order, the relationships whose value
        source was run. */
    method RelationshipLoop(hs: Hash<string, RelData>, many: bool, acc: Hash<string, RelBlock>, env: Env, ghost v: View)
      returns (r: Result<Hash<string, RelBlock>, Error>, ghost evaluated: seq<string>)
      requires Describes(v, env)
      modifies tables
      ensures Describes(v, env)
      ensures r == Pass(v, hs, many, acc)
      ensures evaluated == PassEvaluated(v, hs, many)
      ensures tables.unformatted == old(tables.unformatted)
    {
      evaluated := [];
      var data := acc;
      var i := 0;
      while i < |hs|
        invariant 0 <= i <= |hs|
        invariant Describes(v, env)
        invariant Pass(v, hs[i..], many, data) == Pass(v, hs, many, acc)
        invariant evaluated + PassEvaluated(v, hs[i..], many) == PassEvaluated(v, hs, many)
        invariant tables.unformatted == old(tables.unformatted)
      {
        ghost var stepEvaluated;
        var step;
        step, stepEvaluated := RelationshipStep(hs[i].0, hs[i].1, many, data, env, v);
        PassStep(v, hs, i, many, acc, data, evaluated);
        evaluated := evaluated + stepEvaluated;
        if step.Err? {
          return Err(step.error), evaluated;
        }
        data := step.value;
        i := i + 1;
      }
      assert hs[i..] == [];
      return Ok(data), evaluated;
    }

    /** `relationships`: to-one relationships, then to-many ones, into one hash;
        `evaluated` records, in order, the relationships whose value source was run. */
    method Relationships(env: Env, ghost v: View) returns (r: Result<Hash<string, RelBlock>, Error>, ghost evaluated: seq<string>)
      requires Describes(v, env)
      modifies tables
      ensures Describes(v, env)
      ensures r == RelationshipsOf(v, declarations)
      ensures evaluated == RelEvaluatedOf(v, declarations)
      ensures tables.unformatted == old(tables.unformatted)
    {
      var toOne := HasOneRelationships(env, v);
      r, evaluated := RelationshipLoop(toOne, false, [], env, v);
      if r.Err? {
        return;
      }
      var toMany := HasManyRelationships(env, v);
      ghost var more;
      r, more := RelationshipLoop(toMany, true, r.value, env, v);
      evaluated := evaluated + more;
    }
  }
}
