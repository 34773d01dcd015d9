/** The behaviour pinned down by the repository's tests of `Conditions` and
    `cond`, derived from the contracts of the builder's methods. */
module ConditionalTests {
  import Escaping
  import opened Conditional

  /** Of two matching branches the first wins. */
  method FirstTruthyWins() returns (m: Markup)
    ensures m == Markup("a")
  {
    var c := new Conditions();
    c := c.When(true, Plain(Text("a")));
    c := c.When(true, Plain(Text("b")));
    c := c.Default(Plain(Text("c")));
    Escaping.EscapeKeepsPlainText("a");
    var invoked;
    m, invoked := c.Html();
  }

  /** A branch whose condition is false is skipped. */
  method SkipsFalsy() returns (m: Markup)
    ensures m == Markup("b")
  {
    var c := new Conditions();
    c := c.When(false, Plain(Text("a")));
    c := c.When(true, Plain(Text("b")));
    c := c.Default(Plain(Text("c")));
    Escaping.EscapeKeepsPlainText("b");
    FirstTruthyBranchWins(c.cases, c.fallback, 1);
    var invoked;
    m, invoked := c.Html();
  }

  /** A builder with no branch and no default renders as nothing. */
  method EmptyRendersEmpty() returns (m: Markup)
    ensures m == Markup("")
  {
    var c := new Conditions();
    var invoked;
    m, invoked := c.Html();
  }

  /** An explicit `None` default renders as nothing, like no default. */
  method ExplicitNoneDefaultRendersEmpty() returns (m: Markup)
    ensures m == Markup("")
  {
    var c := new Conditions();
    c := c.When(false, Plain(Text("a")));
    c := c.Default(Plain(NoneValue));
    NoMatchUsesDefault(c.cases, Plain(NoneValue));
    var invoked;
    m, invoked := c.Html();
  }

  /** A lazy branch value is invoked when its branch matches, and the lazy
      default beside it is not. */
  method LazyBranchCalledOnMatch() returns (invoked: seq<ThunkId>)
    ensures invoked == [1]
  {
    var c := new Conditions();
    c := c.When(false, Thunk(0, Text("skipped")));
    c := c.When(true, Thunk(1, Text("lazy")));
    c := c.Default(Thunk(2, Text("default")));
    FirstTruthyBranchWins(c.cases, c.fallback, 1);
    var m;
    m, invoked := c.Html();
  }

  /** A lazy default is not invoked when a branch matches. */
  method LazyDefaultNotCalledWhenMatched() returns (invoked: seq<ThunkId>)
    ensures invoked == []
  {
    var c := new Conditions();
    c := c.When(true, Plain(Text("a")));
    c := c.Default(Thunk(0, Text("default")));
    var m;
    m, invoked := c.Html();
  }

  /** Plain text is escaped. */
  method PlainStringEscaped() returns (m: Markup)
    ensures m == Markup("&lt;b&gt;bold&lt;/b&gt;")
  {
    var c := new Conditions();
    c := c.When(true, Plain(Text("<b>bold</b>")));
    Escaping.EscapeBoldTag();
    var invoked;
    m, invoked := c.Html();
  }

  /** Trusted markup is passed through without being escaped again. */
  method MarkupPassedThrough() returns (m: Markup)
    ensures m == Markup("<b>safe</b>")
  {
    var c := new Conditions();
    c := c.When(true, Plain(HasHtml("<b>safe</b>")));
    var invoked;
    m, invoked := c.Html();
  }

  /** `cond` returns an explicit false default as it is. */
  method CondFalseDefault() returns (r: Data)
    ensures r == Boolean(false)
  {
    var res := Cond([Case(false, Plain(Text("a")))], Some(Plain(Boolean(false))));
    r := res.value;
  }

  /** `cond` with nothing to choose from and no default returns `None`. */
  method CondEmptyReturnsNone() returns (r: Data)
    ensures r == NoneValue
  {
    var res := Cond([], None);
    r := res.value;
  }
}
