/** Condition expressions: normal form, validity, the map they are stored as, and their meaning. */
module Expressions {
  import opened Common
  import opened Text

  datatype Expression = Expression(value1: string, op: string, value2: string, logic: string, children: seq<Expression>)

  const AND := "and"
  const OR := "or"
  const NOT := "not"

  const EQUALS := "equals"
  const NOT_EQUALS := "not_equals"
  const CONTAINS := "contains"
  const NOT_CONTAINS := "not_contains"

  /** normalizeExpression */
  function Normalize(e: Expression): (n: Expression)
    ensures |n.children| == |e.children|
  {
    Expression(TrimSpace(e.value1), Keyword(e.op), TrimSpace(e.value2), Keyword(e.logic),
               seq(|e.children|, i requires 0 <= i < |e.children| => Normalize(e.children[i])))
  }

  lemma {:induction false} NormalizeIdempotent(e: Expression)
    ensures Normalize(Normalize(e)) == Normalize(e)
  {
    hide Keyword, TrimSpace;
    KeywordIdempotent(e.op);
    KeywordIdempotent(e.logic);
    forall i | 0 <= i < |e.children| ensures Normalize(Normalize(e.children[i])) == Normalize(e.children[i]) {
      NormalizeIdempotent(e.children[i]);
    }
  }

  /** The normal form, field by field and all the way down. */
  ghost predicate IsNormalFormOf(n: Expression, e: Expression)
    decreases e
  {
    && IsTrimOf(n.value1, e.value1) && ReadsAs(n.op, e.op) && IsTrimOf(n.value2, e.value2) && ReadsAs(n.logic, e.logic)
    && |n.children| == |e.children|
    && forall i :: 0 <= i < |e.children| ==> IsNormalFormOf(n.children[i], e.children[i])
  }

  /** Normalising trims and lowers exactly what is named, in every child. */
  lemma {:induction false} NormalizeIsNormalForm(e: Expression)
    ensures IsNormalFormOf(Normalize(e), e)
  {
    hide Keyword, TrimSpace, IsTrimOf, ReadsAs;
    TrimSpaceTrims(e.value1);
    TrimSpaceTrims(e.value2);
    KeywordReads(e.op);
    KeywordReads(e.logic);
    forall i | 0 <= i < |e.children| ensures IsNormalFormOf(Normalize(e).children[i], e.children[i]) {
      NormalizeIsNormalForm(e.children[i]);
    }
  }

  // ----- depth: the code recurses into normalised children -----

  function Depth(e: Expression): nat {
    1 + DepthOf(e.children)
  }

  function DepthOf(es: seq<Expression>): nat {
    if es == [] then 0 else Max(Depth(es[0]), DepthOf(es[1..]))
  }

  function Max(a: nat, b: nat): nat {
    if a < b then b else a
  }

  lemma {:induction false} ChildIsShallower(es: seq<Expression>, i: nat)
    requires i < |es|
    ensures Depth(es[i]) <= DepthOf(es)
  {
    if i > 0 {
      ChildIsShallower(es[1..], i - 1);
    }
  }

  lemma {:induction false} NormalizeKeepsDepth(e: Expression)
    ensures Depth(Normalize(e)) == Depth(e)
    decreases e, 1
  {
    forall i | 0 <= i < |e.children| ensures Depth(Normalize(e).children[i]) == Depth(e.children[i]) {
      NormalizeKeepsDepth(e.children[i]);
    }
    SameDepths(Normalize(e).children, e.children);
  }

  lemma {:induction false} SameDepths(a: seq<Expression>, b: seq<Expression>)
    requires |a| == |b| && forall i :: 0 <= i < |a| ==> Depth(a[i]) == Depth(b[i])
    ensures DepthOf(a) == DepthOf(b)
  {
    if a != [] {
      SameDepths(a[1..], b[1..]);
    }
  }

  /** What lets a function go on with a child of the normal form. */
  lemma NormalChildIsShallower(e: Expression, i: nat)
    requires i < |e.children|
    ensures Depth(Normalize(e).children[i]) < Depth(e)
  {
    NormalizeKeepsDepth(e);
    ChildIsShallower(Normalize(e).children, i);
  }

  lemma NormalChildrenAreShallower(e: Expression)
    ensures forall i :: 0 <= i < |e.children| ==> Depth(Normalize(e).children[i]) < Depth(e)
  {
    hide Normalize, Depth;
    forall i | 0 <= i < |e.children| ensures Depth(Normalize(e).children[i]) < Depth(e) {
      NormalChildIsShallower(e, i);
    }
  }

  // ----- validity -----

  predicate HasPrefix(s: string, prefix: string) {
    prefix <= s
  }

  /** isExplicitContractStatePath */
  predicate IsExplicitPath(path: string) {
    || path == "shared" || HasPrefix(path, "shared.")
    || path == "scopes" || HasPrefix(path, "scopes.")
    || path == "runtime" || HasPrefix(path, "runtime.")
    || path == "internal" || HasPrefix(path, "internal.")
  }

  predicate ValidLeaf(n: Expression) {
    && n.children == [] && n.value1 != "" && !IsExplicitPath(n.value1)
    && (n.op == EQUALS || n.op == NOT_EQUALS || n.op == CONTAINS || n.op == NOT_CONTAINS)
  }

  predicate ValidComposite(n: Expression) {
    && (n.logic == AND || n.logic == OR || n.logic == NOT)
    && n.value1 == "" && n.op == "" && n.value2 == ""
    && n.children != [] && (n.logic == NOT ==> |n.children| == 1)
  }

  /** Expression.Validate */
  predicate Validate(e: Expression)
    decreases Depth(e)
  {
    NormalChildrenAreShallower(e);
    hide Normalize, Depth;
    var n := Normalize(e);
    if n.logic == "" then ValidLeaf(n)
    else ValidComposite(n) && forall i | 0 <= i < |n.children| :: Validate(n.children[i])
  }

  /** Validity is a property of the normal form. */
  lemma ValidateNormalized(e: Expression)
    ensures Validate(Normalize(e)) <==> Validate(e)
  {
    hide Normalize, ValidLeaf, ValidComposite;
    NormalizeIdempotent(e);
  }

  /** A path that starts at one of the roots of the whole state. */
  predicate StartsAt(path: string, root: string) {
    path == root || root + "." <= path
  }

  predicate IsAbsolute(path: string) {
    StartsAt(path, "shared") || StartsAt(path, "scopes") || StartsAt(path, "runtime") || StartsAt(path, "internal")
  }

  /** A comparison as it is written: a relative path, a known operator, and no children. */
  predicate IsComparison(e: Expression) {
    && e.children == [] && TrimSpace(e.value1) != "" && !IsAbsolute(TrimSpace(e.value1))
    && Keyword(e.op) in {"equals", "not_equals", "contains", "not_contains"}
  }

  /** A combination as it is written: a known keyword, at least one part, exactly one to negate, and nothing
      of a comparison. */
  predicate IsCombination(e: Expression) {
    && Keyword(e.logic) in {"and", "or", "not"} && e.children != [] && (Keyword(e.logic) == "not" ==> |e.children| == 1)
    && TrimSpace(e.value1) == "" && Keyword(e.op) == "" && TrimSpace(e.value2) == ""
  }

  predicate IsWellFormed(e: Expression) {
    if Keyword(e.logic) == "" then IsComparison(e)
    else IsCombination(e) && forall i | 0 <= i < |e.children| :: IsWellFormed(e.children[i])
  }

  lemma WellFormedParts(e: Expression)
    ensures ValidLeaf(Normalize(e)) <==> IsComparison(e)
    ensures Normalize(e).logic != "" ==> (ValidComposite(Normalize(e)) <==> IsCombination(e))
  {
    hide Keyword, TrimSpace;
  }

  /** Validating the normal form at every level accepts exactly the trees that are well formed as written. */
  lemma {:induction false} ValidIsWellFormed(e: Expression)
    ensures Validate(e) <==> IsWellFormed(e)
  {
    hide Keyword, TrimSpace, ValidLeaf, ValidComposite, IsComparison, IsCombination;
    WellFormedParts(e);
    var n := Normalize(e);
    forall i | 0 <= i < |e.children| ensures Validate(n.children[i]) <==> IsWellFormed(e.children[i]) {
      ValidateNormalized(e.children[i]);
      ValidIsWellFormed(e.children[i]);
    }
  }

  // ----- meaning -----

  /** A state value as the evaluator sees it: its text, and its items if it is a list. */
  datatype Value = Scalar(text: string) | List(text: string, items: seq<string>)

  /** The value the condition is bound to, and what lies below it, by path. */
  datatype Root = Root(whole: Value, below: map<string, Value>)

  /** resolveExpressionValue */
  function Resolve(root: Root, path: string): Option<Value> {
    var p := TrimSpace(path);
    if p == "" then None
    else if p == "." || p == "$" then Some(root.whole)
    else if p in root.below then Some(root.below[p])
    else None
  }

  predicate ValueEquals(v: Value, right: string) {
    TrimSpace(v.text) == TrimSpace(right)
  }

  predicate HasSubstring(s: string, part: string) {
    part <= s || (s != "" && HasSubstring(s[1..], part))
  }

  predicate ValueContains(v: Value, right: string) {
    match v
    case List(_, items) => exists i :: 0 <= i < |items| && TrimSpace(items[i]) == TrimSpace(right)
    case Scalar(text) => HasSubstring(text, TrimSpace(right))
  }

  predicate MatchLeaf(root: Root, n: Expression) {
    var left := Resolve(root, n.value1);
    if n.op == EQUALS then left.Some? && ValueEquals(left.value, n.value2)
    else if n.op == NOT_EQUALS then left.None? || !ValueEquals(left.value, n.value2)
    else if n.op == CONTAINS then left.Some? && ValueContains(left.value, n.value2)
    else n.op == NOT_CONTAINS && (left.None? || !ValueContains(left.value, n.value2))
  }

  /** matchExpression */
  predicate Match(root: Root, e: Expression)
    decreases Depth(e)
  {
    NormalChildrenAreShallower(e);
    hide Normalize, Depth;
    var n := Normalize(e);
    if n.logic == "" then MatchLeaf(root, n)
    else if n.logic == AND then forall i | 0 <= i < |n.children| :: Match(root, n.children[i])
    else if n.logic == OR then exists i | 0 <= i < |n.children| :: Match(root, n.children[i])
    else n.logic == NOT && |n.children| == 1 && !Match(root, n.children[0])
  }

  /** Normalising does not change what an expression says about any state. */
  lemma MatchNormalized(root: Root, e: Expression)
    ensures Match(root, Normalize(e)) == Match(root, e)
  {
    hide Normalize, MatchLeaf;
    NormalizeIdempotent(e);
  }

  /** The value a path leads to: the bound value itself or what lies below it. */
  ghost predicate ValueAt(root: Root, path: string, v: Value) {
    var p := TrimSpace(path);
    && p != ""
    && (if p == "." || p == "$" then v == root.whole else p in root.below && v == root.below[p])
  }

  /** The same text but for spaces around it. */
  ghost predicate SameText(a: string, b: string) {
    exists t :: IsTrimOf(t, a) && IsTrimOf(t, b)
  }

  predicate OccursAt(text: string, part: string, i: nat) {
    i + |part| <= |text| && text[i..i + |part|] == part
  }

  /** A list has the text as an item, anything else has it somewhere in its own text. */
  ghost predicate Has(v: Value, right: string) {
    match v
    case List(_, items) => exists i :: 0 <= i < |items| && SameText(items[i], right)
    case Scalar(text) => exists t, i :: IsTrimOf(t, right) && OccursAt(text, t, i)
  }

  ghost predicate IsEqual(root: Root, path: string, right: string) {
    exists v :: ValueAt(root, path, v) && SameText(v.text, right)
  }

  ghost predicate DoesContain(root: Root, path: string, right: string) {
    exists v :: ValueAt(root, path, v) && Has(v, right)
  }

  /** What a comparison says; the negated operators also hold if there is no value. */
  ghost predicate ComparisonHolds(root: Root, e: Expression) {
    var op := Keyword(e.op);
    || (op == "equals" && IsEqual(root, e.value1, e.value2))
    || (op == "not_equals" && !IsEqual(root, e.value1, e.value2))
    || (op == "contains" && DoesContain(root, e.value1, e.value2))
    || (op == "not_contains" && !DoesContain(root, e.value1, e.value2))
  }

  lemma {:induction false} SubstringOccurs(s: string, part: string)
    ensures HasSubstring(s, part) <==> exists i :: OccursAt(s, part, i)
  {
    if part <= s {
      assert OccursAt(s, part, 0);
    } else if s != "" {
      SubstringOccurs(s[1..], part);
      if i: nat :| OccursAt(s[1..], part, i) {
        assert s[i + 1..i + 1 + |part|] == s[1..][i..i + |part|];
        assert OccursAt(s, part, i + 1);
      }
      if i: nat :| OccursAt(s, part, i) {
        assert i > 0;
        assert s[1..][i - 1..i - 1 + |part|] == s[i..i + |part|];
        assert OccursAt(s[1..], part, i - 1);
      }
    }
  }

  lemma ContainsIsHas(v: Value, right: string)
    ensures ValueContains(v, right) <==> Has(v, right)
  {
    hide TrimSpace, IsTrimOf, SameText, HasSubstring, OccursAt;
    match v
    case List(_, items) =>
      forall i | 0 <= i < |items| ensures TrimSpace(items[i]) == TrimSpace(right) <==> SameText(items[i], right) {
        SameTextIs(items[i], right);
      }
    case Scalar(text) =>
      SubstringOccurs(text, TrimSpace(right));
      TrimSpaceTrims(right);
      forall t | IsTrimOf(t, right) ensures t == TrimSpace(right) {
        TrimIsUnique(t, TrimSpace(right), right);
      }
  }

  lemma SameTextIs(a: string, b: string)
    ensures TrimSpace(a) == TrimSpace(b) <==> SameText(a, b)
  {
    SameTrim(a, b);
  }

  lemma ResolveIsValueAt(root: Root, path: string, v: Value)
    ensures Resolve(root, path) == Some(v) <==> ValueAt(root, path, v)
  {
    hide TrimSpace;
  }

  /** The two relations behind the four operators, for a path and a text that are trimmed already. */
  lemma OperatorsAre(root: Root, path: string, right: string)
    ensures var left := Resolve(root, TrimSpace(path));
            && (left.Some? && ValueEquals(left.value, TrimSpace(right)) <==> IsEqual(root, path, right))
            && (left.Some? && ValueContains(left.value, TrimSpace(right)) <==> DoesContain(root, path, right))
  {
    hide TrimSpace, Resolve, ValueAt, SameText, Has, ValueContains;
    var left := Resolve(root, TrimSpace(path));
    forall v ensures left == Some(v) <==> ValueAt(root, path, v) {
      ResolveIsValueAt(root, TrimSpace(path), v);
      TrimmedPath(root, path, v);
    }
    if left.Some? {
      SameTextIs(left.value.text, right);
      ContainsTrimmed(left.value, right);
    }
  }

  lemma TrimmedPath(root: Root, path: string, v: Value)
    ensures ValueAt(root, TrimSpace(path), v) <==> ValueAt(root, path, v)
  {
    hide TrimSpace;
  }

  lemma ContainsTrimmed(v: Value, right: string)
    ensures ValueContains(v, TrimSpace(right)) <==> Has(v, right)
  {
    hide TrimSpace, Has;
    ContainsIsHas(v, right);
  }

  lemma LeafIsComparison(root: Root, e: Expression)
    ensures MatchLeaf(root, Normalize(e)) <==> ComparisonHolds(root, e)
  {
    hide Keyword, TrimSpace, Resolve, ValueEquals, ValueContains, IsEqual, DoesContain;
    OperatorsAre(root, e.value1, e.value2);
  }

  /** What an expression means, read off the tree as it was written. */
  ghost predicate Meaning(root: Root, e: Expression) {
    var logic := Keyword(e.logic);
    if logic == "" then ComparisonHolds(root, e)
    else if logic == AND then forall i | 0 <= i < |e.children| :: Meaning(root, e.children[i])
    else if logic == OR then exists i | 0 <= i < |e.children| :: Meaning(root, e.children[i])
    else logic == NOT && |e.children| == 1 && !Meaning(root, e.children[0])
  }

  /** Normalising again at every level, as the evaluator does, changes nothing. */
  lemma {:induction false} MatchIsMeaning(root: Root, e: Expression)
    ensures Match(root, e) == Meaning(root, e)
  {
    hide Keyword, TrimSpace, MatchLeaf, ComparisonHolds;
    LeafIsComparison(root, e);
    var n := Normalize(e);
    forall i | 0 <= i < |e.children|
      ensures Match(root, n.children[i]) == Meaning(root, e.children[i])
    {
      MatchNormalized(root, e.children[i]);
      MatchIsMeaning(root, e.children[i]);
    }
  }

  /** The operator that says the opposite. */
  predicate AreOpposites(a: string, b: string) {
    (a == EQUALS && b == NOT_EQUALS) || (a == CONTAINS && b == NOT_CONTAINS)
  }

  /** On every state, values that are missing included, a negated operator decides the opposite. */
  lemma NegatedOperator(root: Root, e: Expression, op: string)
    requires Keyword(e.logic) == "" && AreOpposites(Keyword(e.op), Keyword(op))
    ensures Match(root, e.(op := op)) == !Match(root, e)
  {
    hide Keyword, TrimSpace, ValueEquals, ValueContains;
    var n, m := Normalize(e), Normalize(e.(op := op));
    assert n.value1 == m.value1 && n.value2 == m.value2;
  }

  // ----- the stored form -----

  /** Decoded configuration values, and the typed forms the parser also takes. A slice of maps is an
      array of objects. */
  datatype Any =
    | Nil
    | Str(text: string)
    | Arr(items: seq<Any>)
    | Obj(fields: map<string, Any>)
    | Exp(expression: Expression)
    | Exps(expressions: seq<Expression>)
    | Other

  /** Expression.Map */
  function ToMap(e: Expression): Any
    decreases Depth(e)
  {
    NormalChildrenAreShallower(e);
    hide Normalize, Depth;
    var n := Normalize(e);
    if n.logic == "" then Obj(map["value1" := Str(n.value1), "op" := Str(n.op), "value2" := Str(n.value2)])
    else
      Obj(map["logic" := Str(n.logic),
              "children" := Arr(seq(|n.children|, i requires 0 <= i < |n.children| => ToMap(n.children[i])))])
  }

  /** config.String */
  function StringField(m: map<string, Any>, key: string): string {
    if key in m && m[key].Str? then m[key].text else ""
  }

  /** The expression if it is valid. */
  function Checked(e: Expression): Option<Expression> {
    if Validate(Normalize(e)) then Some(Normalize(e)) else None
  }

  /** parseExpression */
  function Parse(raw: Any): Option<Expression> {
    match raw
    case Exp(e) => Checked(e)
    case Obj(m) =>
      var children := if "children" in m && m["children"] != Nil then ParseList(m["children"]) else Some([]);
      if children.None? then None
      else Checked(Expression(StringField(m, "value1"), StringField(m, "op"), StringField(m, "value2"), StringField(m, "logic"), children.value))
    case _ => None
  }

  /** parseExpressionsConfig; expressions that are already typed are only normalised. */
  function ParseList(raw: Any): Option<seq<Expression>> {
    match raw
    case Nil => Some([])
    case Exps(es) => Some(seq(|es|, i requires 0 <= i < |es| => Normalize(es[i])))
    case Arr(items) => All(seq(|items|, i requires 0 <= i < |items| => Parse(items[i])))
    case _ => None
  }

  /** The values if every one is there. */
  function All<T>(options: seq<Option<T>>): (r: Option<seq<T>>)
    ensures r.Some? <==> forall i :: 0 <= i < |options| ==> options[i].Some?
    ensures r.Some? ==> |r.value| == |options| && forall i :: 0 <= i < |options| ==> options[i] == Some(r.value[i])
  {
    if options == [] then Some([])
    else if options[0].None? then None
    else
      match All(options[1..])
      case None => None
      case Some(rest) => Some([options[0].value] + rest)
  }

  /** Whatever the parser accepts is valid and in normal form. */
  lemma ParsedIsNormal(raw: Any)
    requires Parse(raw).Some?
    ensures Validate(Parse(raw).value) && Normalize(Parse(raw).value) == Parse(raw).value
  {
    hide Normalize, Validate;
    match raw
    case Exp(e) => NormalizeIdempotent(e);
    case Obj(m) =>
      var children := if "children" in m && m["children"] != Nil then ParseList(m["children"]) else Some([]);
      NormalizeIdempotent(
        Expression(StringField(m, "value1"), StringField(m, "op"), StringField(m, "value2"), StringField(m, "logic"), children.value));
  }

  /** What is stored of an expression, by field: a comparison keeps its three texts, a combination its keyword
      and its children, in order. */
  lemma StoredFields(e: Expression)
    ensures ToMap(e).Obj?
    ensures var m := ToMap(e).fields;
            if Keyword(e.logic) == "" then
              && m.Keys == {"value1", "op", "value2"}
              && m["value1"] == Str(TrimSpace(e.value1)) && m["op"] == Str(Keyword(e.op)) && m["value2"] == Str(TrimSpace(e.value2))
            else
              && m.Keys == {"logic", "children"} && m["logic"] == Str(Keyword(e.logic))
              && m["children"].Arr? && |m["children"].items| == |e.children|
              && forall i :: 0 <= i < |e.children| ==> m["children"].items[i] == ToMap(e.children[i])
  {
    hide Keyword, TrimSpace, Depth;
    forall i | 0 <= i < |e.children| ensures ToMap(Normalize(e).children[i]) == ToMap(e.children[i]) {
      NormalizeIdempotent(e.children[i]);
      SameStored(e.children[i]);
    }
  }

  lemma SameStored(e: Expression)
    ensures ToMap(Normalize(e)) == ToMap(e)
  {
    hide Normalize, Depth;
    NormalizeIdempotent(e);
  }

  /** What the parser takes besides stored objects: an expression that is typed already is normalised and has
      to be well formed, a list of such is only normalised, no list is an empty one, and nothing else is
      taken. */
  lemma ParserTakes(e: Expression, es: seq<Expression>, text: string)
    ensures Parse(Exp(e)) == if IsWellFormed(e) then Some(Normalize(e)) else None
    ensures ParseList(Exps(es)).Some? && |ParseList(Exps(es)).value| == |es|
    ensures forall i :: 0 <= i < |es| ==> ParseList(Exps(es)).value[i] == Normalize(es[i])
    ensures ParseList(Nil) == Some([]) && ParseList(Str(text)) == None && ParseList(Other) == None && ParseList(Exp(e)) == None
    ensures Parse(Nil) == None && Parse(Str(text)) == None && Parse(Other) == None && Parse(Exps(es)) == None && Parse(Arr([])) == None
  {
    hide Normalize, Validate, IsWellFormed;
    ValidateNormalized(e);
    ValidIsWellFormed(e);
  }

  lemma ValidShape(e: Expression)
    requires Validate(e)
    ensures var n := Normalize(e);
            if n.logic == "" then n.children == []
            else n.value1 == "" && n.op == "" && n.value2 == "" && forall i :: 0 <= i < |n.children| ==> Validate(n.children[i])
  {
    hide Normalize;
  }

  lemma NormalChildIsNormal(e: Expression, i: nat)
    requires i < |e.children|
    ensures Normalize(Normalize(e).children[i]) == Normalize(e).children[i]
  {
    hide Keyword, TrimSpace;
    NormalizeIdempotent(e.children[i]);
  }

  lemma CheckedNormal(e: Expression)
    requires Validate(e)
    ensures Checked(Normalize(e)) == Some(Normalize(e))
  {
    hide Normalize, Validate;
    NormalizeIdempotent(e);
    ValidateNormalized(e);
  }

  lemma LeafRoundTrip(e: Expression)
    requires Validate(e) && Normalize(e).logic == ""
    ensures Parse(ToMap(e)) == Some(Normalize(e))
  {
    hide Normalize, Validate, Checked;
    var n := Normalize(e);
    ValidShape(e);
    CheckedNormal(e);
    assert n == Expression(n.value1, n.op, n.value2, "", []);
  }

  lemma CompositeRoundTrip(e: Expression, m: map<string, Any>)
    requires Validate(e) && Normalize(e).logic != "" && ToMap(e) == Obj(m) && "children" in m
    requires ParseList(m["children"]) == Some(Normalize(e).children)
    ensures Parse(ToMap(e)) == Some(Normalize(e))
  {
    hide Normalize, Validate, Checked, ParseList;
    var n := Normalize(e);
    ValidShape(e);
    CheckedNormal(e);
    assert n == Expression("", "", "", n.logic, n.children);
  }

  lemma {:induction false} RoundTripOfValid(e: Expression)
    requires Validate(e)
    ensures Parse(ToMap(e)) == Some(Normalize(e))
    decreases Depth(e)
  {
    hide Normalize, Validate, Checked, Parse;
    var n := Normalize(e);
    ValidShape(e);
    if n.logic == "" {
      LeafRoundTrip(e);
    } else {
      var m := ToMap(e).fields;
      var items := m["children"].items;
      forall i | 0 <= i < |items| ensures Parse(items[i]) == Some(n.children[i]) {
        NormalChildIsShallower(e, i);
        NormalChildIsNormal(e, i);
        RoundTripOfValid(n.children[i]);
      }
      assert ParseList(m["children"]).value == n.children;
      CompositeRoundTrip(e, m);
    }
  }

  /** Storing and reading back gives the normal form exactly for the valid expressions. */
  lemma RoundTrip(e: Expression)
    ensures Parse(ToMap(e)) == Some(Normalize(e)) <==> Validate(e)
  {
    if Validate(e) {
      RoundTripOfValid(e);
    } else if Parse(ToMap(e)) == Some(Normalize(e)) {
      ParsedIsNormal(ToMap(e));
      ValidateNormalized(e);
    }
  }

  predicate IsPlainChar(c: char) {
    'a' <= c <= 'z' || '0' <= c <= '9'
  }

  lemma PlainWord(s: string)
    requires forall i :: 0 <= i < |s| ==> IsPlainChar(s[i])
    ensures Keyword(s) == s && TrimSpace(s) == s
  {
    hide TrimSpace;
    assert forall c :: IsPlainChar(c) ==> !IsSpace(c) && LowerChar(c) == c;
    hide IsSpace, LowerChar, IsPlainChar;
    assert Trimmed(s);
    assert ToLower(s) == s;
  }

  /** x equals 1, and the conjunction of just that. */
  const LEAF: Expression := Expression("x", "equals", "1", "", [])
  const CONJUNCTION: Expression := Expression("", "", "", "and", [LEAF])

  lemma ExampleWords()
    ensures Keyword("equals") == "equals" && Keyword("and") == "and" && Keyword("") == "" && ToLower("ANDOR") == "andor"
    ensures TrimSpace("x") == "x" && TrimSpace("1") == "1" && TrimSpace("") == ""
    ensures !IsExplicitPath("x")
  {
    hide Keyword, TrimSpace;
    PlainWord("equals");
    PlainWord("and");
    PlainWord("");
    PlainWord("x");
    PlainWord("1");
    assert "x"[0] != 's' && "x"[0] != 'r' && "x"[0] != 'i';
  }

  lemma LeafIsNormal()
    ensures Normalize(LEAF) == LEAF && ValidLeaf(LEAF)
  {
    hide Keyword, TrimSpace, IsExplicitPath;
    ExampleWords();
    assert Normalize(LEAF).children == [];
  }

  lemma LeafIsValid()
    ensures Normalize(LEAF) == LEAF && Validate(LEAF)
  {
    hide Normalize, ValidLeaf, Depth;
    LeafIsNormal();
  }

  lemma ConjunctionIsNormal()
    ensures Normalize(CONJUNCTION) == CONJUNCTION
  {
    hide Keyword, TrimSpace, IsExplicitPath;
    ExampleWords();
    LeafIsNormal();
    assert Normalize(CONJUNCTION).children == [LEAF];
  }

  lemma ConjunctionIsValid()
    ensures Normalize(CONJUNCTION) == CONJUNCTION && Validate(CONJUNCTION)
  {
    hide Normalize, ValidLeaf, Depth;
    LeafIsValid();
    ConjunctionIsNormal();
  }

  /** The conjunction with a value besides: invalid, and read back as the conjunction. */
  lemma InvalidReadsBackValid()
    ensures var stray := CONJUNCTION.(value1 := "x");
            !Validate(stray) && Parse(ToMap(stray)) == Some(CONJUNCTION) && Validate(CONJUNCTION) && CONJUNCTION != Normalize(stray)
  {
    hide Keyword, TrimSpace, Parse, ToMap, Validate, Normalize;
    ConjunctionIsValid();
    PlainWord("x");
    StrayValueIsForgotten(CONJUNCTION, "x");
  }

  lemma SameMap(a: Expression, b: Expression)
    requires Normalize(a).logic == Normalize(b).logic
    requires if Normalize(a).logic == "" then b == a.(children := b.children) else Normalize(a).children == Normalize(b).children
    ensures ToMap(a) == ToMap(b)
  {
    hide Keyword, TrimSpace, Depth;
  }

  /** A valid composite that is given a value as well is invalid, and reads back as what it was before. */
  lemma StrayValueIsForgotten(e: Expression, value: string)
    requires Validate(e) && Normalize(e).logic != "" && TrimSpace(value) != ""
    ensures var stray := e.(value1 := value);
            !Validate(stray) && Parse(ToMap(stray)) == Some(Normalize(e)) && Normalize(e) != Normalize(stray)
  {
    hide Keyword, TrimSpace, Parse, ToMap, Depth, IsExplicitPath;
    var stray := e.(value1 := value);
    SameMap(stray, e);
    ValidShape(e);
    RoundTripOfValid(e);
  }

  /** So is a valid leaf that is given children. */
  lemma StrayChildrenAreForgotten(e: Expression, children: seq<Expression>)
    requires Validate(e) && Normalize(e).logic == "" && children != []
    ensures var stray := e.(children := children);
            !Validate(stray) && Parse(ToMap(stray)) == Some(Normalize(e)) && Normalize(e) != Normalize(stray)
  {
    hide Keyword, TrimSpace, Parse, ToMap, Depth, IsExplicitPath;
    var stray := e.(children := children);
    SameMap(stray, e);
    ValidShape(e);
    RoundTripOfValid(e);
  }

  // ----- condition configurations -----

  datatype Config = Config(mode: string, expressions: seq<Expression>)

  const ALL := "all"
  const ANY := "any"

  function NormalizeAll(es: seq<Expression>): (r: seq<Expression>)
    ensures |r| == |es| && forall i :: 0 <= i < |es| ==> r[i] == Normalize(es[i])
  {
    seq(|es|, i requires 0 <= i < |es| => Normalize(es[i]))
  }

  /** normalizeExpressionConditionConfig */
  function NormalizeConfig(c: Config): Config {
    var mode := Keyword(c.mode);
    Config(if mode == "" then ALL else mode, NormalizeAll(c.expressions))
  }

  predicate ValidateConfig(c: Config) {
    var n := NormalizeConfig(c);
    && n.expressions != [] && (n.mode == ALL || n.mode == ANY)
    && forall i :: 0 <= i < |n.expressions| ==> Validate(n.expressions[i])
  }

  function ConfigToMap(c: Config): map<string, Any> {
    var n := NormalizeConfig(c);
    map["match" := Str(n.mode),
        "expressions" := Arr(seq(|n.expressions|, i requires 0 <= i < |n.expressions| => ToMap(n.expressions[i])))]
  }

  /** ParseExpressionConditionConfig */
  function ParseConfig(m: map<string, Any>): Option<Config> {
    var expressions := ParseList(if "expressions" in m then m["expressions"] else Nil);
    if expressions.None? then None
    else
      var n := NormalizeConfig(Config(StringField(m, "match"), expressions.value));
      if ValidateConfig(n) then Some(n) else None
  }

  /** What the condition decides. */
  predicate Decide(root: Root, c: Config) {
    var n := NormalizeConfig(c);
    if n.mode == ANY then exists i :: 0 <= i < |n.expressions| && Match(root, n.expressions[i])
    else forall i :: 0 <= i < |n.expressions| ==> Match(root, n.expressions[i])
  }

  lemma NormalizeAllIdempotent(es: seq<Expression>)
    ensures NormalizeAll(NormalizeAll(es)) == NormalizeAll(es)
  {
    hide Normalize;
    forall i | 0 <= i < |es| ensures NormalizeAll(NormalizeAll(es))[i] == NormalizeAll(es)[i] {
      NormalizeIdempotent(es[i]);
    }
  }

  lemma NormalizeConfigIdempotent(c: Config)
    ensures NormalizeConfig(NormalizeConfig(c)) == NormalizeConfig(c)
  {
    hide Keyword, NormalizeAll;
    KeywordIdempotent(c.mode);
    AllIsKeyword();
    NormalizeAllIdempotent(c.expressions);
  }

  lemma AllIsKeyword()
    ensures Keyword(ALL) == ALL
  {
    PlainWord(ALL);
  }

  lemma ConfigRoundTripOfValid(c: Config)
    requires ValidateConfig(c)
    ensures ParseConfig(ConfigToMap(c)) == Some(NormalizeConfig(c))
  {
    hide Normalize, Keyword, Validate, Parse, ToMap;
    var n, m := NormalizeConfig(c), ConfigToMap(c);
    NormalizeConfigIdempotent(c);
    var items := m["expressions"].items;
    forall i | 0 <= i < |items| ensures Parse(items[i]) == Some(n.expressions[i]) {
      RoundTripOfValid(n.expressions[i]);
      NormalizeIdempotent(c.expressions[i]);
    }
    assert ParseList(m["expressions"]).value == n.expressions;
  }

  /** A configuration is valid if it has expressions, all of them well formed, and says all, any or nothing. */
  lemma ValidConfigIs(c: Config)
    ensures ValidateConfig(c)
            <==> && c.expressions != [] && Keyword(c.mode) in {"", "all", "any"}
                 && forall i :: 0 <= i < |c.expressions| ==> IsWellFormed(c.expressions[i])
  {
    hide Normalize, Keyword, Validate, IsWellFormed;
    forall i | 0 <= i < |c.expressions| ensures Validate(Normalize(c.expressions[i])) <==> IsWellFormed(c.expressions[i]) {
      ValidateNormalized(c.expressions[i]);
      ValidIsWellFormed(c.expressions[i]);
    }
  }

  /** It decides by what its expressions mean as written: one of them for "any", all of them otherwise. */
  lemma DecisionIsMeaning(root: Root, c: Config)
    ensures Decide(root, c)
            <==> if Keyword(c.mode) == "any" then exists i :: 0 <= i < |c.expressions| && Meaning(root, c.expressions[i])
                 else forall i :: 0 <= i < |c.expressions| ==> Meaning(root, c.expressions[i])
  {
    hide Normalize, Keyword, Match, Meaning;
    forall i | 0 <= i < |c.expressions| ensures Match(root, Normalize(c.expressions[i])) <==> Meaning(root, c.expressions[i]) {
      MatchNormalized(root, c.expressions[i]);
      MatchIsMeaning(root, c.expressions[i]);
    }
  }

  /** A configuration survives being stored, normalised, exactly if it is valid. */
  lemma ConfigRoundTrip(c: Config)
    ensures ParseConfig(ConfigToMap(c)) == Some(NormalizeConfig(c)) <==> ValidateConfig(c)
  {
    hide ConfigToMap, NormalizeConfig, ParseList;
    NormalizeConfigIdempotent(c);
    if ValidateConfig(c) {
      ConfigRoundTripOfValid(c);
    }
  }

  /** And it decides the same on every state afterwards. */
  lemma StoredConfigDecidesTheSame(root: Root, c: Config)
    requires ValidateConfig(c)
    ensures ParseConfig(ConfigToMap(c)).Some? && Decide(root, ParseConfig(ConfigToMap(c)).value) == Decide(root, c)
  {
    hide ConfigToMap, NormalizeConfig, ParseConfig, Match;
    ConfigRoundTripOfValid(c);
    NormalizeConfigIdempotent(c);
  }
}
