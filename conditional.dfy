/** The value-resolution layer of tdom's conditional rendering: the `Conditions`
    builder, the `cond` function, and the two helpers they share, one that
    evaluates a deferred value and one that turns a resolved value into markup. */
module Conditional {
  import Escaping

  /** The "no default given" sentinel: `None` stands for it, `Some(v)` for a
      default that was given, even one whose data is `NoneValue` or false. */
  datatype Option<T> = None | Some(value: T)

  /** The objects a slot or a branch can hold once resolved. `HasHtml` is any
      object with an `__html__` hook (trusted markup, a rendered node); it
      carries what that hook returns. */
  datatype Data =
    | NoneValue
    | Boolean(b: bool)
    | Integer(i: int)
    | Text(s: string)
    | HasHtml(html: string)

  type ThunkId = nat

  /** A branch value or a default: plain data, or a zero-argument callable.
      A thunk is named by `id` and yields `result` when it is invoked. */
  datatype Value = Plain(data: Data) | Thunk(id: ThunkId, result: Data)

  /** One `(condition, value)` branch. */
  datatype Case = Case(condition: bool, value: Value)

  /** What resolving gives: the resolved value and the thunks invoked, in order. */
  datatype Resolved = Resolved(value: Data, invoked: seq<ThunkId>)

  /** Trusted text: a string that is never escaped again. */
  datatype Markup = Markup(text: string)

  // ---------------------------------------------------------------------------
  // Resolving one value, and turning a resolved value into markup
  // ---------------------------------------------------------------------------

  /** A thunk is invoked once and yields its result; plain data is returned
      as it is and invokes nothing. */
  function ResolveValue(v: Value): (r: Resolved)
    ensures v.Plain? ==> r == Resolved(v.data, [])
    ensures v.Thunk? ==> r == Resolved(v.result, [v.id])
  {
    match v
    case Plain(d) => Resolved(d, [])
    case Thunk(id, res) => Resolved(res, [id])
  }

  function Digit(n: nat): char
    requires n < 10
  {
    "0123456789"[n]
  }

  /** The decimal digits of `n`, most significant first. */
  function NaturalDigits(n: nat): (r: string)
    ensures |r| > 0
    ensures forall k :: 0 <= k < |r| ==> '0' <= r[k] <= '9'
    decreases n
  {
    if n < 10 then [Digit(n)] else NaturalDigits(n / 10) + [Digit(n % 10)]
  }

  /** Python's `str` of `None`, booleans, integers and strings. The `HasHtml`
      arm gives the hook's text only as a stand-in: `ToMarkup` never
      stringifies a hooked object. The text of a boolean or an integer is
      non-empty and holds no HTML metacharacter. */
  function Stringify(d: Data): (r: string)
    ensures d.Boolean? || d.Integer? ==> |r| > 0 && forall k :: 0 <= k < |r| ==> !Escaping.IsMeta(r[k])
  {
    match d
    case NoneValue => "None"
    case Boolean(b) => if b then "True" else "False"
    case Integer(i) =>
      if i < 0 then
        var digits := NaturalDigits(-i);
        assert forall k :: 1 <= k < |"-" + digits| ==> ("-" + digits)[k] == digits[k - 1];
        "-" + digits
      else NaturalDigits(i)
    case Text(s) => s
    case HasHtml(h) => h
  }

  /** A resolved value as markup: nothing for `NoneValue`, the hook's output
      unchanged for an object with an `__html__` hook, and the escaped text of
      anything else. Escaped text keeps no raw tag or quote character and
      unescapes to the text it came from. */
  function ToMarkup(d: Data): (r: Markup)
    ensures d.NoneValue? ==> r.text == ""
    ensures d.HasHtml? ==> r.text == d.html
    ensures !d.HasHtml? ==> Escaping.NoRawMarkup(r.text)
    ensures !d.NoneValue? && !d.HasHtml? ==> Escaping.Unescape(r.text) == Stringify(d)
  {
    match d
    case NoneValue => Markup("")
    case HasHtml(h) => Markup(h)
    case _ =>
      Escaping.EscapeRoundTrip(Stringify(d));
      Markup(Escaping.Escape(Stringify(d)))
  }

  /** Booleans and integers hold no metacharacter, so their markup is their
      `str` text unchanged; in particular a resolved `False` renders as
      `False`, not as nothing. */
  lemma ScalarsRenderAsText(d: Data)
    requires d.Boolean? || d.Integer?
    ensures ToMarkup(d).text == Stringify(d)
  {
    Escaping.EscapeKeepsPlainText(Stringify(d));
  }

  // ---------------------------------------------------------------------------
  // The first-match specification shared by `Conditions` and `cond`
  // ---------------------------------------------------------------------------

  /** The value first-match selection picks: that of the first branch whose
      condition holds, else the default if one was given, else none. */
  function Select(cases: seq<Case>, fallback: Option<Value>): (r: Option<Value>)
    ensures r == fallback || exists k :: 0 <= k < |cases| && cases[k].condition && r == Some(cases[k].value)
    ensures (forall j :: 0 <= j < |cases| ==> !cases[j].condition) ==> r == fallback
    decreases |cases|
  {
    if cases == [] then fallback
    else if cases[0].condition then Some(cases[0].value)
    else Select(cases[1..], fallback)
  }

  /** The position of the first branch whose condition holds, or `|cases|`. */
  function FirstTruthy(cases: seq<Case>): (k: nat)
    ensures k <= |cases|
    ensures forall j :: 0 <= j < k ==> !cases[j].condition
    ensures k < |cases| ==> cases[k].condition
    decreases |cases|
  {
    if cases == [] then 0
    else if cases[0].condition then 0
    else 1 + FirstTruthy(cases[1..])
  }

  /** Resolution: resolve the selected value, or give `NoneValue` invoking
      nothing. It is lazy: at most one thunk is invoked, once, and it is the
      thunk of the selected branch or of the selected default. */
  function Resolution(cases: seq<Case>, fallback: Option<Value>): (r: Resolved)
    ensures |r.invoked| <= 1
    ensures r.invoked != [] <==> Select(cases, fallback).Some? && Select(cases, fallback).value.Thunk?
    ensures r.invoked != [] ==> r.invoked == [Select(cases, fallback).value.id]
  {
    match Select(cases, fallback)
    case Some(v) => ResolveValue(v)
    case None => Resolved(NoneValue, [])
  }

  /** No two thunks among the branches and the default share a name. */
  ghost predicate DistinctThunks(cases: seq<Case>, fallback: Option<Value>) {
    (forall i, j :: 0 <= i < j < |cases| && cases[i].value.Thunk? && cases[j].value.Thunk? ==>
       cases[i].value.id != cases[j].value.id) &&
    (fallback.Some? && fallback.value.Thunk? ==>
       forall i :: 0 <= i < |cases| && cases[i].value.Thunk? ==> cases[i].value.id != fallback.value.id)
  }

  // ---------------------------------------------------------------------------
  // Properties of first-match resolution
  // ---------------------------------------------------------------------------

  /** The recursive scan selects exactly the branch at `FirstTruthy`, and the
      default when no condition holds. */
  lemma {:induction false} SelectIsFirstTruthy(cases: seq<Case>, fallback: Option<Value>)
    ensures var k := FirstTruthy(cases);
      Select(cases, fallback) == if k < |cases| then Some(cases[k].value) else fallback
    decreases |cases|
  {
    if cases != [] && !cases[0].condition {
      SelectIsFirstTruthy(cases[1..], fallback);
    }
  }

  /** The first branch whose condition holds wins, however many later ones hold too. */
  lemma {:induction false} FirstTruthyBranchWins(cases: seq<Case>, fallback: Option<Value>, k: nat)
    requires k < |cases| && cases[k].condition
    requires forall j :: 0 <= j < k ==> !cases[j].condition
    ensures Resolution(cases, fallback) == ResolveValue(cases[k].value)
  {
    SelectIsFirstTruthy(cases, fallback);
    assert FirstTruthy(cases) == k;
  }

  /** With no condition holding, a given default is resolved and returned
      exactly, even when it is `NoneValue` or false. */
  lemma {:induction false} NoMatchUsesDefault(cases: seq<Case>, v: Value)
    requires forall j :: 0 <= j < |cases| ==> !cases[j].condition
    ensures Resolution(cases, Some(v)) == ResolveValue(v)
  {
    SelectIsFirstTruthy(cases, Some(v));
  }

  /** With no condition holding and no default, the result is `NoneValue`,
      nothing is invoked, and the markup is empty. This covers zero branches. */
  lemma {:induction false} NoMatchNoDefaultIsEmpty(cases: seq<Case>)
    requires forall j :: 0 <= j < |cases| ==> !cases[j].condition
    ensures Resolution(cases, None) == Resolved(NoneValue, [])
    ensures ToMarkup(Resolution(cases, None).value) == Markup("")
  {
    SelectIsFirstTruthy(cases, None);
  }

  /** Laziness, branch by branch: the thunk of a branch is invoked exactly when
      that branch is the first whose condition holds. */
  lemma {:induction false} BranchThunkInvokedIffSelected(cases: seq<Case>, fallback: Option<Value>, i: nat)
    requires DistinctThunks(cases, fallback)
    requires i < |cases| && cases[i].value.Thunk?
    ensures cases[i].value.id in Resolution(cases, fallback).invoked <==> i == FirstTruthy(cases)
  {
    SelectIsFirstTruthy(cases, fallback);
  }

  /** Laziness of the default: its thunk is invoked exactly when no condition holds. */
  lemma {:induction false} DefaultThunkInvokedIffNoMatch(cases: seq<Case>, fallback: Option<Value>)
    requires DistinctThunks(cases, fallback)
    requires fallback.Some? && fallback.value.Thunk?
    ensures fallback.value.id in Resolution(cases, fallback).invoked <==>
            forall j :: 0 <= j < |cases| ==> !cases[j].condition
  {
    SelectIsFirstTruthy(cases, fallback);
    var k := FirstTruthy(cases);
    if k < |cases| {
      assert cases[k].condition;
    }
  }

  /** Adding a branch with `when` changes nothing once an earlier branch
      matches; otherwise the new branch competes only with the default. */
  lemma {:induction false} SelectAfterWhen(cases: seq<Case>, c: Case, fallback: Option<Value>)
    ensures Select(cases + [c], fallback) ==
      if FirstTruthy(cases) < |cases| then Select(cases, fallback)
      else if c.condition then Some(c.value)
      else fallback
    decreases |cases|
  {
    if cases == [] {
      assert [] + [c] == [c];
      assert [c][1..] == [];
    } else {
      assert (cases + [c])[0] == cases[0];
      assert (cases + [c])[1..] == cases[1..] + [c];
      if !cases[0].condition {
        SelectAfterWhen(cases[1..], c, fallback);
      }
    }
  }

  // ---------------------------------------------------------------------------
  // The builder
  // ---------------------------------------------------------------------------

  /** Branches in insertion order and an optional default; `Resolve` and `Html`
      read them and change nothing. */
  class Conditions {
    var cases: seq<Case>
    var fallback: Option<Value>

    constructor ()
      ensures cases == [] && fallback == None
    {
      cases := [];
      fallback := None;
    }

    /** Appends one branch at the end and returns this same builder. */
    method When(condition: bool, value: Value) returns (self: Conditions)
      modifies this
      ensures cases == old(cases) + [Case(condition, value)]
      ensures fallback == old(fallback)
      ensures self == this
    {
      cases := cases + [Case(condition, value)];
      self := this;
    }

    /** Sets the default (the last call wins) and returns this same builder. */
    method Default(value: Value) returns (self: Conditions)
      modifies this
      ensures fallback == Some(value)
      ensures cases == old(cases)
      ensures self == this
    {
      fallback := Some(value);
      self := this;
    }

    /** Scans the branches in order and resolves the first that matches, else
      the default if one was set, else gives `NoneValue`. */
    method Resolve() returns (r: Resolved)
      ensures r == Resolution(cases, fallback)
    {
      var i := 0;
      while i < |cases|
        invariant 0 <= i <= |cases|
        invariant Select(cases[i..], fallback) == Select(cases, fallback)
      {
        if cases[i].condition {
          r := ResolveValue(cases[i].value);
          return;
        }
        assert cases[i..][1..] == cases[i + 1..];
        i := i + 1;
      }
      if fallback.Some? {
        r := ResolveValue(fallback.value);
      } else {
        r := Resolved(NoneValue, []);
      }
    }

    /** The `__html__` hook: the resolved value, as markup. */
    method Html() returns (m: Markup, invoked: seq<ThunkId>)
      ensures m == ToMarkup(Resolution(cases, fallback).value)
      ensures invoked == Resolution(cases, fallback).invoked
    {
      var r := Resolve();
      m := ToMarkup(r.value);
      invoked := r.invoked;
    }
  }

  // ---------------------------------------------------------------------------
  // The stateless form
  // ---------------------------------------------------------------------------

  /** `cond(*pairs, default=...)`: the raw resolved payload of the first pair
      whose condition holds, else of the default if given, else `NoneValue`. */
  method Cond(pairs: seq<Case>, fallback: Option<Value>) returns (r: Resolved)
    ensures r == Resolution(pairs, fallback)
  {
    var i := 0;
    while i < |pairs|
      invariant 0 <= i <= |pairs|
      invariant Select(pairs[i..], fallback) == Select(pairs, fallback)
    {
      if pairs[i].condition {
        r := ResolveValue(pairs[i].value);
        return;
      }
      assert pairs[i..][1..] == pairs[i + 1..];
      i := i + 1;
    }
    if fallback.Some? {
      r := ResolveValue(fallback.value);
    } else {
      r := Resolved(NoneValue, []);
    }
  }

  /** A builder made by one `When` per pair, in order, then `Default` when a
      default is given. */
  method BuildConditions(pairs: seq<Case>, fallback: Option<Value>) returns (c: Conditions)
    ensures fresh(c)
    ensures c.cases == pairs && c.fallback == fallback
  {
    c := new Conditions();
    var i := 0;
    while i < |pairs|
      invariant 0 <= i <= |pairs|
      invariant fresh(c)
      invariant c.cases == pairs[..i] && c.fallback == None
    {
      c := c.When(pairs[i].condition, pairs[i].value);
      assert pairs[..i + 1] == pairs[..i] + [pairs[i]];
      i := i + 1;
    }
    if fallback.Some? {
      c := c.Default(fallback.value);
    }
  }

  /** `cond` gives what the equivalent builder resolves to, thunk log included. */
  method CondAgreesWithConditions(pairs: seq<Case>, fallback: Option<Value>)
    returns (direct: Resolved, built: Resolved)
    ensures direct == built
    ensures direct == Resolution(pairs, fallback)
  {
    direct := Cond(pairs, fallback);
    var c := BuildConditions(pairs, fallback);
    built := c.Resolve();
  }

  /** Resolving a builder twice gives the same result and leaves it as it was. */
  method ResolveTwice(c: Conditions) returns (first: Resolved, second: Resolved)
    ensures first == second
    ensures first == Resolution(c.cases, c.fallback)
  {
    first := c.Resolve();
    second := c.Resolve();
  }
}
