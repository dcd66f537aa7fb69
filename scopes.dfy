/**
 * The `Scope` class of Scope.java: a node of the parent-linked environment
 * holding a symbol table, a property table, a statement list and a chart
 * list.  Each scope's own fields are updated in place; the parent link is
 * fixed at construction, and the ghost `ancestors` lists the scopes above it
 * up to the root, which makes the chain finite and acyclic.
 *
 * The source calls `parent.getSymbol` (and the other three) without checking
 * for the root, so it throws on every lookup miss and on every put
 * (`ScopeChain.GetAsWritten`, `ScopeChain.PutAsWritten`).  These methods
 * treat the root's missing parent as "not found" instead.
 */
module Scopes {
  import opened Values
  import ScopeChain

  /** The binding cells, parsed statements and chart records; defined outside this model. */
  type Symbol
  type Statement
  type Chart

  class Scope {
    const parent: Scope?
    /** `parent`, its parent, and so on up to the root. */
    ghost const ancestors: set<Scope>
    /** The number of ancestors. */
    ghost const depth: nat

    var symbolTable: ScopeChain.Frame<Symbol>
    var properties: ScopeChain.Frame<Value>
    var statements: seq<Statement>
    var charts: seq<Chart>

    ghost predicate Valid()
      decreases depth
    {
      if parent == null then ancestors == {} && depth == 0
      else ancestors == {parent} + parent.ancestors && this !in ancestors && depth == parent.depth + 1 && parent.Valid()
    }

    /** The symbol tables of the chain, this scope's first. */
    ghost function SymbolMaps(): (r: seq<ScopeChain.Frame<Symbol>>)
      requires Valid()
      reads this, ancestors
      ensures |r| == depth + 1 && r[0] == symbolTable
      decreases depth
    {
      [symbolTable] + if parent == null then [] else parent.SymbolMaps()
    }

    /** The property tables of the chain, this scope's first. */
    ghost function PropertyMaps(): (r: seq<ScopeChain.Frame<Value>>)
      requires Valid()
      reads this, ancestors
      ensures |r| == depth + 1 && r[0] == properties
      decreases depth
    {
      [properties] + if parent == null then [] else parent.PropertyMaps()
    }

    /** Every scope's statement and chart lists along the chain. */
    ghost function Lists(): (r: seq<(seq<Statement>, seq<Chart>)>)
      requires Valid()
      reads this, ancestors
      ensures |r| == depth + 1 && r[0] == (statements, charts)
      decreases depth
    {
      [(statements, charts)] + if parent == null then [] else parent.Lists()
    }

    /** `new Scope()` with `parent == null`, or `new Scope(parent)`: four empty collections. */
    constructor (parent: Scope?)
      requires parent != null ==> parent.Valid()
      ensures Valid() && this.parent == parent
      ensures SymbolMaps() == [map[]] + (if parent == null then [] else parent.SymbolMaps())
      ensures PropertyMaps() == [map[]] + (if parent == null then [] else parent.PropertyMaps())
      ensures statements == [] && charts == []
    {
      this.parent := parent;
      ancestors := if parent == null then {} else {parent} + parent.ancestors;
      depth := if parent == null then 0 else parent.depth + 1;
      symbolTable := map[];
      properties := map[];
      statements := [];
      charts := [];
    }

    /** `getSymbol`: the nearest binding along the chain; `None` when no scope binds the name. */
    function GetSymbol(name: string): (r: Option<Symbol>)
      requires Valid()
      reads this, ancestors
      ensures r == ScopeChain.Lookup(SymbolMaps(), name)
      decreases depth
    {
      if ScopeChain.Bound(symbolTable, name) then symbolTable[name]
      else if parent == null then None
      else parent.GetSymbol(name)
    }

    /** `getProperty`: the nearest binding along the chain of property tables. */
    function GetProperty(name: string): (r: Option<Value>)
      requires Valid()
      reads this, ancestors
      ensures r == ScopeChain.Lookup(PropertyMaps(), name)
      decreases depth
    {
      if ScopeChain.Bound(properties, name) then properties[name]
      else if parent == null then None
      else parent.GetProperty(name)
    }

    /**
     * `putSymbol`: if the parent chain binds the name the parent puts it,
     * otherwise this scope's table stores it.  Only the symbol tables change.
     */
    method PutSymbol(name: string, symbol: Symbol)
      requires Valid()
      modifies this, ancestors
      ensures SymbolMaps() == ScopeChain.Put(old(SymbolMaps()), name, symbol)
      ensures PropertyMaps() == old(PropertyMaps()) && Lists() == old(Lists())
      decreases depth
    {
      if parent != null && parent.GetSymbol(name).Some? {
        parent.PutSymbol(name, symbol);
      } else {
        symbolTable := symbolTable[name := Some(symbol)];
      }
    }

    /** `putProperty`: the same owner-or-local rule over the property tables. */
    method PutProperty(name: string, value: Value)
      requires Valid()
      modifies this, ancestors
      ensures PropertyMaps() == ScopeChain.Put(old(PropertyMaps()), name, value)
      ensures SymbolMaps() == old(SymbolMaps()) && Lists() == old(Lists())
      decreases depth
    {
      if parent != null && parent.GetProperty(name).Some? {
        parent.PutProperty(name, value);
      } else {
        properties := properties[name := Some(value)];
      }
    }

    /** `getStatements`: this scope's own list; it reads nothing above this scope. */
    function GetStatements(): (r: seq<Statement>)
      requires Valid()
      reads this
      ensures r == Lists()[0].0
    {
      statements
    }

    /** `getCharts`: this scope's own list; it reads nothing above this scope. */
    function GetCharts(): (r: seq<Chart>)
      requires Valid()
      reads this
      ensures r == Lists()[0].1
    {
      charts
    }
  }
}
