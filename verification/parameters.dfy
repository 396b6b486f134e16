/** Slider parameters on the graphing pages. Whenever the function list
    changes, the set of free symbols is recomputed; sliders for symbols still
    in use keep their settings, new symbols get a default slider, and sliders
    for symbols no longer in use disappear. */
module Parameters {
  import opened Wrappers
  import opened JsText
  import opened FunctionList

  /** One slider: its current value and its range. */
  datatype Param = Param(value: real, min: real, max: real)

  /** New sliders on the geometry board (MathNew.jsx). */
  const GeometryDefault := Param(2.0, -10.0, 10.0)

  /** New sliders on the graphing page (Math.jsx). */
  const GraphDefault := Param(1.0, -10.0, 10.0)

  /** Names never treated as parameters: the built-in functions and constants
      both pages list. */
  const MathFunctions: seq<string> :=
    ["sin", "cos", "tan", "sqrt", "exp", "log", "abs", "ceil",
     "floor", "round", "sign", "ln", "asin", "acos", "atan",
     "sinh", "cosh", "tanh", "log10", "cbrt", "e", "pi", "PI"]

  /** A symbol that may become a parameter. */
  predicate IsParamName(sym: string) {
    sym != "x" && sym != "y" && sym !in MathFunctions
  }

  /** Among one-letter names only `x`, `y` and `e` are excluded. */
  lemma ExcludedLetters(c: char)
    ensures !IsParamName([c]) <==> c == 'x' || c == 'y' || c == 'e'
  {
    assert forall i :: 0 <= i < |MathFunctions| && MathFunctions[i] != "e" ==> |MathFunctions[i]| != 1;
    if c == 'e' {
      assert MathFunctions[20] == [c];
    }
  }

  /** The geometry board's symbol extraction: every ASCII letter of the
      expression, as a one-letter name (`expr.match(/[a-z]/gi)`). */
  function LetterSymbols(expr: string): (syms: set<string>)
    ensures forall sym :: sym in syms <==>
      |sym| == 1 && IsAsciiLetter(sym[0]) && sym[0] in expr
  {
    var r := set i | 0 <= i < |expr| && IsAsciiLetter(expr[i]) :: [expr[i]];
    assert forall sym: string :: |sym| == 1 ==> sym == [sym[0]];
    r
  }

  /** The parameter names one function contributes: none for a blank
      expression, otherwise the extracted symbols that are not excluded. */
  function ParamsOf(expr: string, symbols: string -> set<string>): (names: set<string>)
    ensures Blank(expr) ==> names == {}
    ensures !Blank(expr) ==> forall sym :: sym in names <==> sym in symbols(expr) && IsParamName(sym)
  {
    if Blank(expr) then {} else set sym | sym in symbols(expr) && IsParamName(sym)
  }

  /** Some function of the list contributes `sym`. */
  predicate UsesParam(fs: seq<FnEntry>, symbols: string -> set<string>, sym: string) {
    exists i :: 0 <= i < |fs| && sym in ParamsOf(fs[i].expression, symbols)
  }

  lemma UsesParamCons(fs: seq<FnEntry>, symbols: string -> set<string>, sym: string)
    requires |fs| > 0
    ensures UsesParam(fs, symbols, sym) <==>
      sym in ParamsOf(fs[0].expression, symbols) || UsesParam(fs[1..], symbols, sym)
  {
    if UsesParam(fs, symbols, sym) && sym !in ParamsOf(fs[0].expression, symbols) {
      var i :| 0 <= i < |fs| && sym in ParamsOf(fs[i].expression, symbols);
      assert fs[1..][i - 1] == fs[i];
    }
    if UsesParam(fs[1..], symbols, sym) {
      var i :| 0 <= i < |fs[1..]| && sym in ParamsOf(fs[1..][i].expression, symbols);
      assert fs[i + 1] == fs[1..][i];
    }
  }

  /** All parameter names used by the function list. */
  function UsedParams(fs: seq<FnEntry>, symbols: string -> set<string>): (names: set<string>)
    ensures forall sym :: sym in names <==> UsesParam(fs, symbols, sym)
  {
    if |fs| == 0 then {}
    else
      var rest := UsedParams(fs[1..], symbols);
      forall sym ensures UsesParam(fs, symbols, sym) <==>
        sym in ParamsOf(fs[0].expression, symbols) || UsesParam(fs[1..], symbols, sym)
      {
        UsesParamCons(fs, symbols, sym);
      }
      ParamsOf(fs[0].expression, symbols) + rest
  }

  /** The names every plain JavaScript object inherits from
      `Object.prototype`; `name in obj` is true for them even when `obj`
      has no such key of its own. */
  const ObjectPrototypeNames: set<string> :=
    {"constructor", "hasOwnProperty", "isPrototypeOf", "propertyIsEnumerable",
     "toLocaleString", "toString", "valueOf", "__proto__",
     "__defineGetter__", "__defineSetter__", "__lookupGetter__", "__lookupSetter__"}

  /** JavaScript's `name in obj` on a plain object whose own keys are `obj`'s. */
  predicate InObject(obj: map<string, Param>, name: string) {
    name in obj || name in ObjectPrototypeNames
  }

  /** No one-letter name is inherited, so on such names `in` is plain membership. */
  lemma LettersNotInherited(sym: string)
    requires |sym| == 1
    ensures sym !in ObjectPrototypeNames
  {
  }

  /** The reconciling state update: a used name gets the default slider
      unless `in` already finds it, then every own key that is not used is
      deleted. An inherited name that is not an own key therefore never gets
      a slider; a kept key keeps its slider. */
  function Reconcile(prev: map<string, Param>, used: set<string>, default: Param): (r: map<string, Param>)
    ensures forall k :: k in r <==> k in used && (k in prev || !InObject(prev, k))
    ensures forall k :: k in used && k in prev ==> r[k] == prev[k]
    ensures forall k :: k in used && !InObject(prev, k) ==> r[k] == default
  {
    map k | k in used && (k in prev || k !in ObjectPrototypeNames) :: if k in prev then prev[k] else default
  }

  /** Reconciling again with the same symbols changes nothing. */
  lemma ReconcileIdempotent(prev: map<string, Param>, used: set<string>, default: Param)
    ensures Reconcile(Reconcile(prev, used, default), used, default) == Reconcile(prev, used, default)
  {
  }

  /** A slider whose symbol disappears and comes back starts again from the
      default, unless the symbol is an inherited name, which gets none. */
  lemma ReconcileForgets(prev: map<string, Param>, used: set<string>, sym: string, default: Param)
    requires sym !in used
    ensures var r := Reconcile(Reconcile(prev, used, default), used + {sym}, default);
      && (sym in r <==> sym !in ObjectPrototypeNames)
      && (sym in r ==> r[sym] == default)
  {
  }

  /** Starting from sliders with no inherited name, reconciling never adds one. */
  lemma ReconcileNoInherited(prev: map<string, Param>, used: set<string>, default: Param)
    requires forall k :: k in prev ==> k !in ObjectPrototypeNames
    ensures forall k :: k in Reconcile(prev, used, default) ==> k !in ObjectPrototypeNames
    ensures Reconcile(prev, used, default).Keys == used - ObjectPrototypeNames
  {
  }

  /** The geometry board's effect: letters of non-blank expressions, default
      value 2 in [-10, 10]. */
  function GeometryParams(prev: map<string, Param>, fs: seq<FnEntry>): (r: map<string, Param>)
    ensures forall sym :: sym in r <==>
      |sym| == 1 && sym[0] != 'x' && sym[0] != 'y' && sym[0] != 'e' && IsAsciiLetter(sym[0])
      && exists i :: 0 <= i < |fs| && !Blank(fs[i].expression) && sym[0] in fs[i].expression
    ensures forall sym :: sym in r && sym in prev ==> r[sym] == prev[sym]
    ensures forall sym :: sym in r && sym !in prev ==> r[sym] == GeometryDefault
  {
    var used := UsedParams(fs, LetterSymbols);
    forall sym ensures sym in used <==>
      |sym| == 1 && sym[0] != 'x' && sym[0] != 'y' && sym[0] != 'e' && IsAsciiLetter(sym[0])
      && exists i :: 0 <= i < |fs| && !Blank(fs[i].expression) && sym[0] in fs[i].expression
    {
      if |sym| == 1 {
        ExcludedLetters(sym[0]);
        assert sym == [sym[0]];
      }
    }
    forall sym | sym in used
      ensures sym !in ObjectPrototypeNames
    {
      LettersNotInherited(sym);
    }
    var r := Reconcile(prev, used, GeometryDefault);
    assert forall sym :: sym in r <==> sym in used;
    r
  }

  /** The graphing page's extraction: the symbol names of the parsed
      expression tree, or nothing when the expression does not parse. */
  function ParsedSymbols(parse: string -> Option<seq<string>>): (symbols: string -> set<string>)
    ensures forall e :: parse(e).None? ==> symbols(e) == {}
    ensures forall e, sym :: parse(e).Some? ==> (sym in symbols(e) <==> sym in parse(e).value)
  {
    e => match parse(e) case None => {} case Some(names) => set sym | sym in names
  }

  /** The graphing page's effect: default value 1 in [-10, 10]. A parsed
      symbol that is an inherited name (`toString`, `valueOf`, ...) passes
      the `in` test and so gets no slider. */
  function GraphParams(prev: map<string, Param>, fs: seq<FnEntry>,
                       parse: string -> Option<seq<string>>): (r: map<string, Param>)
    ensures forall sym :: sym in r <==>
      && IsParamName(sym)
      && (sym in prev || sym !in ObjectPrototypeNames)
      && ParsedIn(fs, parse, sym)
    ensures forall sym :: sym in r && sym in prev ==> r[sym] == prev[sym]
    ensures forall sym :: sym in r && sym !in prev ==> r[sym] == GraphDefault
  {
    var used := UsedParams(fs, ParsedSymbols(parse));
    forall sym ensures sym in used <==> IsParamName(sym) && ParsedIn(fs, parse, sym) {
      UsesParsed(fs, parse, sym);
    }
    Reconcile(prev, used, GraphDefault)
  }

  /** Some non-blank row parses and names `sym`. */
  predicate ParsedIn(fs: seq<FnEntry>, parse: string -> Option<seq<string>>, sym: string) {
    exists i :: 0 <= i < |fs| && !Blank(fs[i].expression)
      && parse(fs[i].expression).Some? && sym in parse(fs[i].expression).value
  }

  lemma UsesParsed(fs: seq<FnEntry>, parse: string -> Option<seq<string>>, sym: string)
    ensures UsesParam(fs, ParsedSymbols(parse), sym) <==> IsParamName(sym) && ParsedIn(fs, parse, sym)
  {
    var symbols := ParsedSymbols(parse);
    if UsesParam(fs, symbols, sym) {
      var i :| 0 <= i < |fs| && sym in ParamsOf(fs[i].expression, symbols);
      assert !Blank(fs[i].expression);
    }
    if IsParamName(sym) && ParsedIn(fs, parse, sym) {
      var i :| 0 <= i < |fs| && !Blank(fs[i].expression)
        && parse(fs[i].expression).Some? && sym in parse(fs[i].expression).value;
      assert sym in ParamsOf(fs[i].expression, symbols);
    }
  }

  /** A row such as `toString * x` gives `toString` no slider on the
      graphing page: the name is found on the prototype chain. */
  lemma InheritedNamesGetNoSlider(prev: map<string, Param>, fs: seq<FnEntry>,
                                  parse: string -> Option<seq<string>>, sym: string)
    requires sym in ObjectPrototypeNames && sym !in prev
    ensures sym !in GraphParams(prev, fs, parse)
  {
  }
}
