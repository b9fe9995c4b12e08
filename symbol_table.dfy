/**
 * Symbol tables (src/compiler/symbol_table.c, src/compiler/symbol_table.h).
 *
 * The file as written keeps one flat store in which every symbol is GLOBAL.
 * The compiler (src/compiler/compiler.c) and the tests
 * (src/compiler/symbol_table_test.c) use enclosed tables with local, builtin
 * and free scopes; that table is modelled as a stack of levels, the global
 * level first.
 */
module SymbolTable {
  import opened Wrappers

  datatype Scope = GlobalScope | LocalScope | BuiltinScope | FreeScope

  datatype Symbol = Symbol(name: string, scope: Scope, index: nat)

  // ---------------------------------------------------------------- as written

  /** The table of symbol_table.c: the hashmap and the definition counter. */
  datatype Flat = Flat(store: map<string, Symbol>, numDefinitions: nat)

  /** symbol_define as written: the next index, always in GLOBAL_SCOPE. */
  function FlatDefine(t: Flat, name: string): (r: (Flat, Symbol))
    ensures r.1 == Symbol(name, GlobalScope, t.numDefinitions)
    ensures r.0.numDefinitions == t.numDefinitions + 1
    ensures r.0.store.Keys == t.store.Keys + {name} && r.0.store[name] == r.1
    ensures forall n | n in t.store && n != name :: r.0.store[n] == t.store[n]
  {
    var s := Symbol(name, GlobalScope, t.numDefinitions);
    (Flat(t.store[name := s], t.numDefinitions + 1), s)
  }

  /** symbol_resolve: the hashmap lookup, NULL for a name never defined. */
  function FlatResolve(t: Flat, name: string): (r: Option<Symbol>)
    ensures r.Some? <==> name in t.store
  {
    if name in t.store then Some(t.store[name]) else None
  }

  /** Defining the names one after another from a new table. */
  function FlatDefineAll(t: Flat, names: seq<string>): (r: (Flat, seq<Symbol>))
    ensures |r.1| == |names|
    decreases |names|
  {
    if names == [] then (t, [])
    else
      var (t1, s) := FlatDefine(t, names[0]);
      var (t2, ss) := FlatDefineAll(t1, names[1..]);
      (t2, [s] + ss)
  }

  /** As written, the i-th name defined gets index i and the global scope, however the table is used. */
  lemma {:induction false} FlatDefineAllIsGlobal(t: Flat, names: seq<string>)
    ensures FlatDefineAll(t, names).0.numDefinitions == t.numDefinitions + |names|
    ensures forall i | 0 <= i < |names| ::
      FlatDefineAll(t, names).1[i] == Symbol(names[i], GlobalScope, t.numDefinitions + i)
    decreases |names|
  {
    if names != [] {
      var (t1, s) := FlatDefine(t, names[0]);
      FlatDefineAllIsGlobal(t1, names[1..]);
      var ss := FlatDefineAll(t1, names[1..]).1;
      assert FlatDefineAll(t, names).1 == [s] + ss;
      forall i | 1 <= i < |names|
        ensures FlatDefineAll(t, names).1[i] == Symbol(names[i], GlobalScope, t.numDefinitions + i)
      {
        assert ([s] + ss)[i] == ss[i - 1];
        assert names[1..][i - 1] == names[i];
      }
    }
  }

  /** After a define, resolving the name gives the defined symbol back. */
  lemma {:induction false} FlatResolveAfterDefine(t: Flat, name: string)
    ensures FlatResolve(FlatDefine(t, name).0, name) == Some(FlatDefine(t, name).1)
  {}

  /** A name never defined resolves to NULL. */
  lemma {:induction false} FlatResolveUndefined(names: seq<string>, name: string)
    requires name !in names
    ensures FlatResolve(FlatDefineAll(Flat(map[], 0), names).0, name).None?
  {
    FlatNoOtherKeys(Flat(map[], 0), names);
  }

  lemma {:induction false} FlatNoOtherKeys(t: Flat, names: seq<string>)
    ensures FlatDefineAll(t, names).0.store.Keys == t.store.Keys + set n | n in names
    decreases |names|
  {
    if names != [] {
      var t1 := FlatDefine(t, names[0]).0;
      FlatNoOtherKeys(t1, names[1..]);
      assert (set n | n in names) == {names[0]} + set n | n in names[1..] by {
        forall n | n in names ensures n == names[0] || n in names[1..] {
          var i :| 0 <= i < |names| && names[i] == n;
          if i > 0 { assert names[1..][i - 1] == n; }
        }
      }
    }
  }

  /** The symbol table object of symbol_table.c, updated in place. */
  class Table {
    var store: map<string, Symbol>
    var numDefinitions: nat

    function Value(): Flat
      reads this
    {
      Flat(store, numDefinitions)
    }

    /** new_symbol_table: an empty store and no definitions. */
    constructor ()
      ensures Value() == Flat(map[], 0)
    {
      store := map[];
      numDefinitions := 0;
    }

    /** symbol_define: stores the symbol and increments num_definitions. */
    method Define(name: string) returns (s: Symbol)
      modifies this
      ensures (Value(), s) == FlatDefine(old(Value()), name)
    {
      s := Symbol(name, GlobalScope, numDefinitions);
      store := store[name := s];
      numDefinitions := numDefinitions + 1;
    }

    /** symbol_resolve. */
    method Resolve(name: string) returns (r: Option<Symbol>)
      ensures r == FlatResolve(Value(), name)
    {
      r := if name in store then Some(store[name]) else None;
    }
  }

  // ---------------------------------------------------------------- enclosed tables

  /** One table: its store, the count of names defined in it, and the free symbols it captured. */
  datatype Level = Level(store: map<string, Symbol>, numDefinitions: nat, free: seq<Symbol>)

  const EmptyLevel: Level := Level(map[], 0, [])

  /** A table and its chain of outer tables; the global table is element 0. */
  type Tables = ts: seq<Level> | |ts| >= 1 witness [EmptyLevel]

  function Top(ts: Tables): Level { ts[|ts| - 1] }

  function WithTop(ts: Tables, l: Level): (r: Tables)
    ensures |r| == |ts| && Top(r) == l && r[..|ts| - 1] == ts[..|ts| - 1]
  {
    ts[|ts| - 1 := l]
  }

  /** new_symbol_table. */
  const NewTables: Tables := [EmptyLevel]

  /** new_enclosed_symbol_table: an empty table whose outer is the current one. */
  function Enclose(ts: Tables): (r: Tables)
    ensures |r| == |ts| + 1 && r[..|ts|] == ts && Top(r) == EmptyLevel
  {
    ts + [EmptyLevel]
  }

  /** The outer table, which leave_compiler_scope makes current again. */
  function Outer(ts: Tables): (r: Tables)
    requires |ts| >= 2
    ensures |r| == |ts| - 1 && r == ts[..|ts| - 1]
  {
    ts[..|ts| - 1]
  }

  /** symbol_define: the next index of the current table, GLOBAL in the outermost table and LOCAL elsewhere. */
  function Define(ts: Tables, name: string): (r: (Tables, Symbol))
    ensures r.1.name == name && r.1.index == Top(ts).numDefinitions
    ensures r.1.scope == (if |ts| == 1 then GlobalScope else LocalScope)
    ensures |r.0| == |ts| && r.0[..|ts| - 1] == ts[..|ts| - 1]
    ensures Top(r.0).numDefinitions == Top(ts).numDefinitions + 1 && Top(r.0).free == Top(ts).free
    ensures Top(r.0).store == Top(ts).store[name := r.1]
  {
    var t := Top(ts);
    var s := Symbol(name, if |ts| == 1 then GlobalScope else LocalScope, t.numDefinitions);
    (WithTop(ts, Level(t.store[name := s], t.numDefinitions + 1, t.free)), s)
  }

  /** symbol_define_builtin: the name in BUILTIN_SCOPE with the table index; it is not counted as a definition. */
  function DefineBuiltin(ts: Tables, index: nat, name: string): (r: Tables)
    ensures |r| == |ts| && r[..|ts| - 1] == ts[..|ts| - 1]
    ensures Top(r) == Top(ts).(store := Top(ts).store[name := Symbol(name, BuiltinScope, index)])
  {
    var t := Top(ts);
    WithTop(ts, t.(store := t.store[name := Symbol(name, BuiltinScope, index)]))
  }

  /** Capturing an outer symbol: it is appended to the free symbols and named FREE with its position. */
  function DefineFree(ts: Tables, original: Symbol): (r: (Tables, Symbol))
    ensures r.1 == Symbol(original.name, FreeScope, |Top(ts).free|)
    ensures |r.0| == |ts| && r.0[..|ts| - 1] == ts[..|ts| - 1]
    ensures Top(r.0).free == Top(ts).free + [original]
    ensures Top(r.0).numDefinitions == Top(ts).numDefinitions
    ensures Top(r.0).store == Top(ts).store[original.name := r.1]
  {
    var t := Top(ts);
    var s := Symbol(original.name, FreeScope, |t.free|);
    (WithTop(ts, Level(t.store[original.name := s], t.numDefinitions, t.free + [original])), s)
  }

  /**
   * symbol_resolve: the current table's symbol, else the outer tables'. A
   * global or builtin symbol found outside is returned as it is; a local or
   * free one of an enclosing function is captured as a free symbol of every
   * table between.
   */
  function Resolve(ts: Tables, name: string): (r: (Tables, Option<Symbol>))
    ensures |r.0| == |ts|
    decreases |ts|
  {
    var t := Top(ts);
    if name in t.store then (ts, Some(t.store[name]))
    else if |ts| == 1 then (ts, None)
    else
      var (outer, found) := Resolve(Outer(ts), name);
      var ts1: Tables := outer + [t];
      if found.None? then (ts1, None)
      else if found.value.scope == GlobalScope || found.value.scope == BuiltinScope then (ts1, found)
      else
        var (ts2, s) := DefineFree(ts1, found.value);
        (ts2, Some(s))
  }

  /** The name is defined in no table of the chain. */
  predicate Undefined(ts: Tables, name: string)
  {
    forall i | 0 <= i < |ts| :: name !in ts[i].store
  }

  // ---------------------------------------------------------------- properties

  /** A defined name resolves to its symbol and resolving changes nothing. */
  lemma {:induction false} ResolveAfterDefine(ts: Tables, name: string)
    ensures Resolve(Define(ts, name).0, name) == (Define(ts, name).0, Some(Define(ts, name).1))
  {}

  /** A name no table defines resolves to NULL and nothing is captured. */
  lemma {:induction false} ResolveUndefined(ts: Tables, name: string)
    requires Undefined(ts, name)
    ensures Resolve(ts, name) == (ts, None)
    decreases |ts|
  {
    if |ts| > 1 {
      var o := Outer(ts);
      assert Undefined(o, name) by {
        forall i | 0 <= i < |o| ensures name !in o[i].store { assert o[i] == ts[i]; }
      }
      ResolveUndefined(o, name);
      assert o + [Top(ts)] == ts;
    }
  }

  /** Resolving never changes a table's definition count, only records free symbols. */
  lemma {:induction false} ResolveKeepsCounts(ts: Tables, name: string)
    ensures forall i | 0 <= i < |ts| :: Resolve(ts, name).0[i].numDefinitions == ts[i].numDefinitions
    ensures forall i | 0 <= i < |ts| :: ts[i].store.Keys <= Resolve(ts, name).0[i].store.Keys
    ensures Resolve(ts, name).0[0] == ts[0]
    decreases |ts|
  {
    if |ts| > 1 && name !in Top(ts).store {
      ResolveKeepsCounts(Outer(ts), name);
    }
  }

  /**
   * A global or builtin symbol is found from every depth as it was defined,
   * when no inner table shadows its name; nothing is captured.
   */
  lemma {:induction false} ResolveGlobalFromAnyDepth(ts: Tables, name: string)
    requires name in ts[0].store && ts[0].store[name].scope in {GlobalScope, BuiltinScope}
    requires forall i | 1 <= i < |ts| :: name !in ts[i].store
    ensures Resolve(ts, name) == (ts, Some(ts[0].store[name]))
    decreases |ts|
  {
    if |ts| > 1 {
      var o := Outer(ts);
      assert o[0] == ts[0];
      assert forall i | 1 <= i < |o| :: o[i] == ts[i];
      ResolveGlobalFromAnyDepth(o, name);
      assert o + [Top(ts)] == ts;
    }
  }

  /** Entering then leaving a table gives the chain back. */
  lemma {:induction false} LeaveEnclose(ts: Tables)
    ensures Outer(Enclose(ts)) == ts
  {}

  /** A local of the enclosing function becomes free symbol 0 of a nested function, and the original is kept. */
  lemma {:induction false} ResolveCapturesLocal(ts: Tables, name: string)
    requires |ts| == 2 && name !in ts[0].store
    ensures var inner := Enclose(Define(ts, name).0);
      var (r, s) := Resolve(inner, name);
      && s == Some(Symbol(name, FreeScope, 0))
      && Top(r).free == [Symbol(name, LocalScope, ts[1].numDefinitions)]
      && r[..2] == Define(ts, name).0
  {
    var d := Define(ts, name).0;
    var inner := Enclose(d);
    assert Outer(inner) == d;
    assert name !in Top(inner).store;
  }

  // ---------------------------------------------------------------- the tests

  /** test_define: two globals, then indices restart at 0 and the scope is LOCAL in each enclosed table. */
  lemma {:induction false} DefineExample()
    ensures var (g1, a) := Define(NewTables, "a"); var (g2, b) := Define(g1, "b");
      var (l1, c) := Define(Enclose(g2), "c"); var (l2, d) := Define(l1, "d");
      var (m1, e) := Define(Enclose(l2), "e"); var (m2, f) := Define(m1, "f");
      && a == Symbol("a", GlobalScope, 0) && b == Symbol("b", GlobalScope, 1)
      && c == Symbol("c", LocalScope, 0) && d == Symbol("d", LocalScope, 1)
      && e == Symbol("e", LocalScope, 0) && f == Symbol("f", LocalScope, 1)
  {}

  /** test_define as written: one flat table, so the third name is GLOBAL with index 2 where the test expects LOCAL 0. */
  lemma {:induction false} FlatDefineExample()
    ensures FlatDefineAll(Flat(map[], 0), ["a", "b", "c"]).1[2] == Symbol("c", GlobalScope, 2)
  {
    FlatDefineAllIsGlobal(Flat(map[], 0), ["a", "b", "c"]);
  }

  /** test_define_resolve_builtins: builtins defined in the global table resolve from every depth. */
  lemma {:induction false} BuiltinExample(index: nat, name: string, depth: nat)
    ensures var g := DefineBuiltin(NewTables, index, name);
      var ts := Nest(g, depth);
      Resolve(ts, name) == (ts, Some(Symbol(name, BuiltinScope, index)))
  {
    var g := DefineBuiltin(NewTables, index, name);
    NestShape(g, depth);
    ResolveGlobalFromAnyDepth(Nest(g, depth), name);
  }

  /** The chain after `depth` calls of new_enclosed_symbol_table. */
  function Nest(ts: Tables, depth: nat): Tables
  {
    if depth == 0 then ts else Enclose(Nest(ts, depth - 1))
  }

  lemma {:induction false} NestShape(ts: Tables, depth: nat)
    ensures |Nest(ts, depth)| == |ts| + depth
    ensures Nest(ts, depth)[..|ts|] == ts
    ensures forall i | |ts| <= i < |ts| + depth :: Nest(ts, depth)[i] == EmptyLevel
  {
    if depth > 0 {
      NestShape(ts, depth - 1);
      var n := Nest(ts, depth - 1);
      assert Nest(ts, depth) == n + [EmptyLevel];
      assert Nest(ts, depth)[..|ts|] == n[..|ts|];
    }
  }
}
