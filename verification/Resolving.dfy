/** What resolving a template or a parameter tree gives, said about the template's own text. */
module Resolving {
  import opened Collections
  import opened Text
  import opened Tokenizer
  import opened Templates

  /** The shortcut looks for a doubled opening brace anywhere in the text. */
  lemma ContainsIff(t: string)
    ensures ContainsExpression(t) <==> exists i :: 0 <= i < |t| - 1 && t[i] == '{' && t[i + 1] == '{'
  {
    FindPairIs(t, '{', 0);
    if i :| 0 <= i < |t| - 1 && t[i] == '{' && t[i + 1] == '{' { assert PairAt(t, '{', i); }
  }

  // ---- A lone expression keeps its value -----------------------------------------------------

  /** A template that is one expression and nothing else resolves to the value itself, whatever its type. */
  lemma LoneExpression(ev: Evaluator, t: string, raw: string)
    requires GoodRaw(raw) && t == "{{" + raw + "}}"
    ensures match ev.eval(Strip(raw, IsSpace))
            case Success(v) => ResolveFully(ev, t) == Success(v)
            case Failure(m) => ResolveFully(ev, t) == Failure(Evaluation(m))
  {
    var x := Tiling([Segment("", raw)], "");
    assert Rest(x) == Tiling([], "");
    assert Spell(Rest(x)) == "" && Spell(x) == "" + ("{{" + raw + "}}") + "" && t[0..] == t;
    TokenizeSpelled(t, 0, x);
    assert ChunksOf(Rest(x), |raw| + 4) == [];
    assert ChunksOf(x, 0) == [ExpressionChunk(Strip(raw, IsSpace), 0)];
  }

  // ---- Any other template becomes text ----------------------------------------------------------

  /** The text of a value in a template: nothing for null, its str() otherwise. */
  ghost function TextOf(ev: Evaluator, v: Value): string {
    match v
    case Null => ""
    case _ => ev.str(v)
  }

  /** Literals and the texts of values, in order; the first expression that fails decides. */
  ghost function Rendered(ev: Evaluator, x: Tiling): Result<string, string>
    decreases |x.segments|
  {
    if x.segments == [] then Success(x.tail)
    else
      match ev.eval(Strip(x.segments[0].raw, IsSpace))
      case Failure(m) => Failure(m)
      case Success(v) =>
        match Rendered(ev, Rest(x))
        case Failure(m) => Failure(m)
        case Success(text) => Success(x.segments[0].text + TextOf(ev, v) + text)
  }

  /** One expression with no text around it. */
  ghost predicate IsLone(x: Tiling) {
    |x.segments| == 1 && x.segments[0].text == "" && x.tail == ""
  }

  ghost predicate Renders(joined: Result<string, ResolveError>, rendered: Result<string, string>) {
    match rendered
    case Success(text) => joined == Success(text)
    case Failure(m) => joined == Failure(Evaluation(m))
  }

  ghost function Glue(a: Result<string, ResolveError>, b: Result<string, ResolveError>): Result<string, ResolveError> {
    match a
    case Failure(e) => Failure(e)
    case Success(s) => (match b case Failure(e) => Failure(e) case Success(t) => Success(s + t))
  }

  lemma GlueTwice(a: Result<string, ResolveError>, b: Result<string, ResolveError>, c: Result<string, ResolveError>)
    ensures Glue(Glue(a, b), c) == Glue(a, Glue(b, c))
    ensures Glue(a, Success([])) == a
  {
    if a.Success? && b.Success? && c.Success? { Regroup(a.value, b.value, c.value); }
    if a.Success? { assert a.value + [] == a.value; }
  }

  ghost function Piece(ev: Evaluator, c: Chunk): Result<string, ResolveError> {
    match c
    case LiteralChunk(text) => Success(text)
    case ExpressionChunk(source, _) =>
      match ev.eval(source)
      case Success(v) => Success(TextOf(ev, v))
      case Failure(m) => Failure(Evaluation(m))
  }

  lemma JoinedPush(ev: Evaluator, cs: seq<Chunk>, c: Chunk)
    ensures Joined(ev, cs + [c]) == Glue(Joined(ev, cs), Piece(ev, c))
  {
    assert Init(cs + [c]) == cs;
  }

  lemma {:induction false} JoinedAppend(ev: Evaluator, a: seq<Chunk>, b: seq<Chunk>)
    ensures Joined(ev, a + b) == Glue(Joined(ev, a), Joined(ev, b))
  {
    if b == [] {
      assert a + b == a;
      GlueTwice(Joined(ev, a), Success([]), Success([]));
    } else {
      InitLast(b);
      JoinedAppend(ev, a, Init(b));
      assert a + b == (a + Init(b)) + [Last(b)];
      JoinedPush(ev, a + Init(b), Last(b));
      JoinedPush(ev, Init(b), Last(b));
      GlueTwice(Joined(ev, a), Joined(ev, Init(b)), Piece(ev, Last(b)));
    }
  }

  lemma JoinedLiteral(ev: Evaluator, text: string)
    ensures Joined(ev, LiteralOf(text)) == Success(text)
  {
    if text != [] {
      assert [] + [LiteralChunk(text)] == [LiteralChunk(text)] && [] + text == text;
      JoinedPush(ev, [], LiteralChunk(text));
    }
  }

  lemma JoinedHead(ev: Evaluator, s: Segment, offset: nat)
    ensures Joined(ev, HeadOf(s, offset)) == Glue(Success(s.text), Piece(ev, ExpressionChunk(Strip(s.raw, IsSpace), offset + |s.text|)))
  {
    JoinedLiteral(ev, s.text);
    JoinedPush(ev, LiteralOf(s.text), ExpressionChunk(Strip(s.raw, IsSpace), offset + |s.text|));
  }

  lemma {:induction false} ChunksRender(ev: Evaluator, x: Tiling, offset: nat)
    ensures Renders(Joined(ev, ChunksOf(x, offset)), Rendered(ev, x))
    decreases |x.segments|
  {
    if x.segments == [] {
      JoinedLiteral(ev, x.tail);
    } else {
      var s, next := x.segments[0], After(x.segments[0], offset);
      ChunksRender(ev, Rest(x), next);
      ChunksStep(x, offset);
      JoinedAppend(ev, HeadOf(s, offset), ChunksOf(Rest(x), next));
      JoinedHead(ev, s, offset);
    }
  }

  lemma LoneIff(x: Tiling, offset: nat)
    ensures (|ChunksOf(x, offset)| == 1 && ChunksOf(x, offset)[0].ExpressionChunk?) <==> IsLone(x)
  {
    if x.segments != [] {
      ChunksStep(x, offset);
      var rest := ChunksOf(Rest(x), After(x.segments[0], offset));
      if |x.segments| > 1 {
        ChunksStep(Rest(x), After(x.segments[0], offset));
        assert |rest| >= 1;
      }
    }
  }

  /**
   Any good template that is not one lone expression resolves to text: its literals with the text of each
   value in its place, or the first evaluation failure.
   */
  lemma MixedTemplate(ev: Evaluator, t: string, x: Tiling)
    requires Good(x) && Spell(x) == t && !IsLone(x)
    ensures match Rendered(ev, x)
            case Success(text) => ResolveFully(ev, t) == Success(Str(text))
            case Failure(m) => ResolveFully(ev, t) == Failure(Evaluation(m))
  {
    assert t[0..] == t;
    TokenizeSpelled(t, 0, x);
    ChunksRender(ev, x, 0);
    LoneIff(x, 0);
  }

  /** A template without a good tiling is a syntax error, whatever its expressions would give. */
  lemma RefusedTemplate(ev: Evaluator, t: string)
    requires !exists x :: Good(x) && Spell(x) == t
    ensures TokenizeFrom(t, 0).Failure? && ResolveFully(ev, t) == Failure(Syntax(TokenizeFrom(t, 0).error))
  {
    TokenizerMeetsGrammar(t);
  }

  // ---- Trees --------------------------------------------------------------------------------------------

  ghost predicate ResolvesEach(ev: Evaluator, items: seq<Value>, vs: seq<Value>) {
    |vs| == |items| && forall i | 0 <= i < |items| :: ResolveTree(ev, items[i]) == Success(vs[i])
  }

  lemma {:induction false} AllResolved(ev: Evaluator, parent: Value, items: seq<Value>, vs: seq<Value>)
    requires forall v | v in items :: v < parent
    ensures ResolveAll(ev, parent, items) == Success(vs) <==> ResolvesEach(ev, items, vs)
    decreases |items|
  {
    if items != [] {
      assert items[0] in items && forall v | v in items[1..] :: v in items;
      if vs != [] {
        AllResolved(ev, parent, items[1..], vs[1..]);
        assert vs == [vs[0]] + vs[1..];
        assert ResolvesEach(ev, items, vs) <==> ResolveTree(ev, items[0]) == Success(vs[0]) && ResolvesEach(ev, items[1..], vs[1..]) by {
          EachByHead(ev, items, vs);
        }
      }
    }
  }

  lemma EachByHead(ev: Evaluator, items: seq<Value>, vs: seq<Value>)
    requires items != [] && vs != []
    ensures ResolvesEach(ev, items, vs) <==> ResolveTree(ev, items[0]) == Success(vs[0]) && ResolvesEach(ev, items[1..], vs[1..])
  {
    if ResolvesEach(ev, items[1..], vs[1..]) && ResolveTree(ev, items[0]) == Success(vs[0]) {
      forall i | 0 <= i < |items|
        ensures ResolveTree(ev, items[i]) == Success(vs[i])
      {
        assert i > 0 ==> items[i] == items[1..][i - 1] && vs[i] == vs[1..][i - 1];
      }
    }
    if ResolvesEach(ev, items, vs) {
      assert forall i | 0 <= i < |items[1..]| :: items[1..][i] == items[i + 1] && vs[1..][i] == vs[i + 1];
    }
  }

  /** A tree resolves to a tree of the same shape with every text resolved as a template, and nothing else changed. */
  lemma TreeResolves(ev: Evaluator, tree: Value, r: Value)
    ensures ResolveTree(ev, tree) == Success(r) <==>
            match tree
            case Str(text) => ResolveFully(ev, text) == Success(r)
            case Null => r == Null
            case Scalar(repr) => r == Scalar(repr)
            case List(items) => r.List? && ResolvesEach(ev, items, r.items)
            case Tuple(items) => r.Tuple? && ResolvesEach(ev, items, r.items)
            case Dict(keys, items) => r.Dict? && r.keys == keys && ResolvesEach(ev, items, r.items)
  {
    match tree
    case List(items) => Resolved(ev, tree, items, r);
    case Tuple(items) => Resolved(ev, tree, items, r);
    case Dict(_, items) => Resolved(ev, tree, items, r);
    case _ =>
  }

  lemma Resolved(ev: Evaluator, tree: Value, items: seq<Value>, r: Value)
    requires forall v | v in items :: v < tree
    ensures r.List? || r.Tuple? || r.Dict? ==>
              (ResolveAll(ev, tree, items) == Success(r.items) <==> ResolvesEach(ev, items, r.items))
  {
    if r.List? || r.Tuple? || r.Dict? { AllResolved(ev, tree, items, r.items); }
  }
}
