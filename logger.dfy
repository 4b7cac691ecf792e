/**
 * The logger registry of config/logger.js: a module-level `Map` from logger
 * name to logger, filled on demand by `getLogger`. A Bunyan logger is
 * abstracted to its name and level; the environment name that
 * config/properties.js provides is passed in as `env`.
 */
module LoggerRegistry {
  import opened Common

  datatype Level = Debug | Info

  /** What `bunyan.createLogger({name, level})` is built from. */
  datatype Logger = Logger(name: string, level: Level)

  /** `part` occurs in `s` starting at position `i`. */
  predicate OccursAt(s: string, part: string, i: int) {
    0 <= i <= |s| - |part| && s[i..i + |part|] == part
  }

  /** `s.includes(part)`. */
  predicate Includes(s: string, part: string) {
    exists i :: 0 <= i <= |s| && OccursAt(s, part, i)
  }

  /** The level of a new logger: `debug` in a development environment, `info` otherwise. */
  function LevelFor(env: string): Level
  {
    if Includes(env, "development") then Debug else Info
  }

  /** `env.NODE_ENV || 'development'`: an unset or empty NODE_ENV means development. */
  function EnvOrDefault(nodeEnv: Option<string>): string
  {
    if nodeEnv.Some? && nodeEnv.value != "" then nodeEnv.value else "development"
  }

  class Registry {
    /** The keys of `_loggers` in insertion order, the order a `Map` iterates in. */
    var keys: seq<string>
    var table: map<string, Logger>

    ghost predicate Valid()
      reads this
    {
      && Distinct(keys)
      && (forall name :: name in table <==> name in keys)
      && (forall name :: name in table ==> table[name].name == name)
    }

    constructor ()
      ensures Valid() && keys == [] && table == map[]
    {
      keys := [];
      table := map[];
    }

    /** `getLogger(name)`: the registered logger, or a new one, registered under its name. */
    method GetLogger(name: string, env: string) returns (logger: Logger)
      requires Valid()
      modifies this
      ensures Valid()
      ensures name in table && logger == table[name] && logger.name == name
      ensures old(name in table) ==> logger == old(table[name]) && keys == old(keys) && table == old(table)
      ensures old(name !in table) ==>
        && logger == Logger(name, LevelFor(env))
        && keys == old(keys) + [name] && table == old(table)[name := logger]
    {
      if name in table {
        logger := table[name];
      } else {
        logger := Logger(name, LevelFor(env));
        table := table[name := logger];
        keys := keys + [name];
      }
    }

    /** `getLoggers()`: every registered logger, in insertion order. */
    method GetLoggers() returns (loggers: seq<Logger>)
      requires Valid()
      ensures |loggers| == |keys|
      ensures forall i :: 0 <= i < |keys| ==> loggers[i] == table[keys[i]]
      ensures forall l :: l in loggers <==> l in table.Values
    {
      loggers := [];
      var i := 0;
      while i < |keys|
        invariant 0 <= i <= |keys|
        invariant |loggers| == i
        invariant forall j :: 0 <= j < i ==> loggers[j] == table[keys[j]]
      {
        loggers := loggers + [table[keys[i]]];
        i := i + 1;
      }
      forall l | l in table.Values ensures l in loggers {
        var name :| name in table && table[name] == l;
        var j :| 0 <= j < |keys| && keys[j] == name;
        assert loggers[j] == l;
      }
    }

    /** `getLoggerNames()`: the names of the registered loggers, in insertion order. */
    method GetLoggerNames() returns (names: seq<string>)
      requires Valid()
      ensures names == keys
      ensures Distinct(names)
      ensures forall i :: 0 <= i < |names| ==> names[i] == table[keys[i]].name
    {
      names := [];
      var i := 0;
      while i < |keys|
        invariant 0 <= i <= |keys|
        invariant names == keys[..i]
      {
        names := names + [table[keys[i]].name];
        i := i + 1;
      }
    }
  }

  /** Two requests for the same name give the same logger, and only the first may register one. */
  method GetLoggerTwice(r: Registry, name: string, env1: string, env2: string)
    returns (first: Logger, second: Logger)
    requires r.Valid()
    modifies r
    ensures r.Valid() && first == second && first.name == name
    ensures |r.keys| <= |old(r.keys)| + 1
    ensures old(name in r.table) ==> r.keys == old(r.keys) && r.table == old(r.table)
  {
    first := r.GetLogger(name, env1);
    ghost var keysBetween := r.keys;
    second := r.GetLogger(name, env2);
    assert r.keys == keysBetween;
  }

  // ---------------------------------------------------------------------------
  // Properties of the level rule
  // ---------------------------------------------------------------------------

  /** Any environment name that has "development" inside it logs at `debug`. */
  lemma DevelopmentInside(prefix: string, suffix: string)
    ensures LevelFor(prefix + "development" + suffix) == Debug
  {
    var env := prefix + "development" + suffix;
    assert env[|prefix|..|prefix| + |"development"|] == "development";
    assert OccursAt(env, "development", |prefix|);
  }

  /** Without NODE_ENV the environment is "development", so loggers log at `debug`. */
  lemma DefaultEnvironmentDebugs()
    ensures LevelFor(EnvOrDefault(None)) == Debug
  {
    DevelopmentInside("", "");
    assert "" + "development" + "" == "development";
  }

  /** A production environment logs at `info`. */
  lemma ProductionInforms(env: string)
    requires env == "production"
    ensures LevelFor(env) == Info
  {
  }
}
