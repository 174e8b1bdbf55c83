/** The three process-wide memo hashes of the serializer (`@@class_names`,
    `@@formatted_attribute_names`, `@@unformatted_attribute_names`): each is written
    with `||=`, so a key is stored once, by the first call that finds it absent, and
    every later call returns the stored name, whatever the naming configuration is by then. */
module NameMemo {
  import opened Common

  /** The active naming configuration and the inflections the tables cache:
      `JSONAPI::Serializer.transform_key_casing`, `demodulize.tableize` and `underscore`,
      taken as uninterpreted string functions. */
  datatype Inflector = Inflector(
    transformKeyCasing: string -> string,
    demodulizeTableize: string -> string,
    underscore: string -> string)

  /** `memo[key] ||= computed` evaluated for its value (names are never nil or false). */
  function Recall(memo: map<string, string>, key: string, computed: string): string {
    if key in memo then memo[key] else computed
  }

  /** `memo[key] ||= computed` evaluated for its effect on the table. */
  function Remember(memo: map<string, string>, key: string, computed: string): map<string, string> {
    if key in memo then memo else memo[key := computed]
  }

  function FreshType(inf: Inflector, className: string): string {
    inf.transformKeyCasing(inf.demodulizeTableize(className))
  }

  function FreshFormat(inf: Inflector, name: string): string {
    inf.transformKeyCasing(name)
  }

  function FreshUnformat(inf: Inflector, name: string): string {
    inf.underscore(name)
  }

  /** A snapshot of the three tables. */
  datatype Tables = Tables(
    classNames: map<string, string>,
    formatted: map<string, string>,
    unformatted: map<string, string>)
  {
    /** What `type` returns for an object of class `className`. */
    function TypeOf(inf: Inflector, className: string): string {
      Recall(classNames, className, FreshType(inf, className))
    }

    /** What `format_name` returns for `name`. */
    function FormatOf(inf: Inflector, name: string): string {
      Recall(formatted, name, FreshFormat(inf, name))
    }

    /** What `unformat_name` returns for `name`. */
    function UnformatOf(inf: Inflector, name: string): string {
      Recall(unformatted, name, FreshUnformat(inf, name))
    }
  }

  function EmptyTables(): Tables {
    Tables(map[], map[], map[])
  }

  /** `t1` is `t0` plus entries that the configuration `inf` computed for keys that were absent. */
  ghost predicate Grows(t0: Tables, t1: Tables, inf: Inflector) {
    && (forall k :: k in t0.classNames ==> k in t1.classNames && t1.classNames[k] == t0.classNames[k])
    && (forall k :: k in t1.classNames && k !in t0.classNames ==> t1.classNames[k] == FreshType(inf, k))
    && (forall k :: k in t0.formatted ==> k in t1.formatted && t1.formatted[k] == t0.formatted[k])
    && (forall k :: k in t1.formatted && k !in t0.formatted ==> t1.formatted[k] == FreshFormat(inf, k))
    && (forall k :: k in t0.unformatted ==> k in t1.unformatted && t1.unformatted[k] == t0.unformatted[k])
    && (forall k :: k in t1.unformatted && k !in t0.unformatted ==> t1.unformatted[k] == FreshUnformat(inf, k))
  }

  lemma GrowsReflexive(t: Tables, inf: Inflector)
    ensures Grows(t, t, inf)
  {
  }

  lemma GrowsTransitive(t0: Tables, t1: Tables, t2: Tables, inf: Inflector)
    requires Grows(t0, t1, inf) && Grows(t1, t2, inf)
    ensures Grows(t0, t2, inf)
  {
  }

  /** Growing the tables under one configuration never changes what any name resolves to
      under that configuration. */
  lemma GrowsKeepsNames(t0: Tables, t1: Tables, inf: Inflector)
    requires Grows(t0, t1, inf)
    ensures forall c :: t1.TypeOf(inf, c) == t0.TypeOf(inf, c)
    ensures forall n :: t1.FormatOf(inf, n) == t0.FormatOf(inf, n)
    ensures forall n :: t1.UnformatOf(inf, n) == t0.UnformatOf(inf, n)
  {
  }

  /** After one call has stored a name, every later call returns it, even under a
      different naming configuration. */
  lemma StoredNameIsStale(memo: map<string, string>, key: string, computed: string, later: string)
    ensures Recall(Remember(memo, key, computed), key, later) == Recall(memo, key, computed)
  {
  }

  /** The table contents after a series of `||=` calls, each given as (key, value the
      configuration of that moment computes). */
  function Replay(memo: map<string, string>, writes: seq<(string, string)>): map<string, string>
    decreases |writes|
  {
    if writes == [] then memo else Replay(Remember(memo, writes[0].0, writes[0].1), writes[1..])
  }

  /** The value the first write for `key` offered, if any. */
  function FirstWrite(writes: seq<(string, string)>, key: string): Option<string>
    decreases |writes|
  {
    if writes == [] then None
    else if writes[0].0 == key then Some(writes[0].1)
    else FirstWrite(writes[1..], key)
  }



  /** Whatever the interleaving of calls and configurations, a key holds the value that was
      there before or else the value of the first call that wrote it; later calls never
      replace it, and keys no call touched stay absent. */
  lemma {:induction false} ReplayKeepsFirstWrite(memo: map<string, string>, writes: seq<(string, string)>, key: string)
    ensures key in Replay(memo, writes) <==> key in memo || FirstWrite(writes, key).Some?
    ensures key in memo ==> Replay(memo, writes)[key] == memo[key]
    ensures key !in memo && FirstWrite(writes, key).Some? ==>
              Replay(memo, writes)[key] == FirstWrite(writes, key).value
    decreases |writes|
  {
    if writes != [] {
      ReplayKeepsFirstWrite(Remember(memo, writes[0].0, writes[0].1), writes[1..], key);
    }
  }

  /** The memo hashes themselves, shared by every serializer instance. */
  class NameTables {
    var classNames: map<string, string>
    var formatted: map<string, string>
    var unformatted: map<string, string>

    function Snapshot(): Tables
      reads this
    {
      Tables(classNames, formatted, unformatted)
    }

    /** The tables as the process starts: `@@... = {}`. */
    constructor ()
      ensures Snapshot() == EmptyTables()
    {
      classNames, formatted, unformatted := map[], map[], map[];
    }

    /** Replaces all three tables by empty hashes, as the test helper does around a
        configuration change. */
    method Reset()
      modifies this
      ensures Snapshot() == EmptyTables()
    {
      classNames, formatted, unformatted := map[], map[], map[];
    }

    /** The memoized type of a class: the key-cased, tableized class name, written only
        when the class name is not yet a key. */
    method Type(className: string, inf: Inflector) returns (t: string)
      modifies this
      ensures t == old(Snapshot()).TypeOf(inf, className)
      ensures className in classNames && classNames[className] == t
      ensures classNames == Remember(old(classNames), className, FreshType(inf, className))
      ensures formatted == old(formatted) && unformatted == old(unformatted)
      ensures Grows(old(Snapshot()), Snapshot(), inf)
    {
      if className !in classNames {
        classNames := classNames[className := FreshType(inf, className)];
      }
      t := classNames[className];
    }

    /** The memoized formatted name: the key-cased attribute name, written only when the
        name is not yet a key. */
    method FormatName(name: string, inf: Inflector) returns (f: string)
      modifies this
      ensures f == old(Snapshot()).FormatOf(inf, name)
      ensures name in formatted && formatted[name] == f
      ensures formatted == Remember(old(formatted), name, FreshFormat(inf, name))
      ensures classNames == old(classNames) && unformatted == old(unformatted)
      ensures Grows(old(Snapshot()), Snapshot(), inf)
    {
      if name !in formatted {
        formatted := formatted[name := FreshFormat(inf, name)];
      }
      f := formatted[name];
    }

    /** The memoized unformatted name: the underscored attribute name, written only when
        the name is not yet a key. */
    method UnformatName(name: string, inf: Inflector) returns (u: string)
      modifies this
      ensures u == old(Snapshot()).UnformatOf(inf, name)
      ensures name in unformatted && unformatted[name] == u
      ensures unformatted == Remember(old(unformatted), name, FreshUnformat(inf, name))
      ensures classNames == old(classNames) && formatted == old(formatted)
      ensures Grows(old(Snapshot()), Snapshot(), inf)
    {
      if name !in unformatted {
        unformatted := unformatted[name := FreshUnformat(inf, name)];
      }
      u := unformatted[name];
    }
  }
}
