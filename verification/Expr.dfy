/**
 The monitor's expression evaluator on tokens, and its partners: a grammar with one level for each class of C
 operators, and a printer that writes only the parentheses that are needed.  The evaluator gives the value of
 every token list the grammar derives, and of every tree printed.
 */
module Expr {
  import opened Isa
  import opened Bits

  // ------------------------------------------------------------------- tokens

  datatype Op = Mul | Div | Rem | Add | Sub | Lt | Gt | Le | Ge | Eq | Ne | BitAnd | BitXor | BitOr | LogAnd | LogOr

  datatype Token = Number(value: Word) | Operator(op: Op) | Open | Close

  const MAX_PRIOR := 15
  const MAX_DEPTH := 35

  /** Precedence; a smaller number binds tighter. */
  function Prior(o: Op): (k: nat)
    ensures 3 <= k <= 12
  {
    match o
    case Mul | Div | Rem => 3
    case Add | Sub => 4
    case Lt | Gt | Le | Ge => 6
    case Eq | Ne => 7
    case BitAnd => 8
    case BitXor => 9
    case BitOr => 10
    case LogAnd => 11
    case LogOr => 12
  }

  /** The table lookup; -1 for a token that is no operator. */
  function FindPrior(t: Token): int { if t.Operator? then Prior(t.op) else -1 }

  datatype Result = Ok(value: Word) | Fail

  function Truth(b: bool): Word { if b then 1 else 0 }

  lemma {:induction false} AndBound(x: nat, y: nat)
    ensures And(x, y) <= x
    decreases x
  {
    if x != 0 && y != 0 { AndBound(x / 2, y / 2); }
  }

  /** One operator on 64-bit words; division by zero fails. */
  function Apply(o: Op, a: Word, b: Word): Result {
    match o
    case Add => Ok(Wrap(a + b))
    case Sub => Ok(Wrap(a - b))
    case Mul => Ok(Wrap(a * b))
    case Div => if b == 0 then Fail else QuotientWord(a, b); Ok(a / b)
    case Rem => if b == 0 then Fail else Ok(a % b)
    case Lt => Ok(Truth(a < b))
    case Gt => Ok(Truth(a > b))
    case Le => Ok(Truth(a <= b))
    case Ge => Ok(Truth(a >= b))
    case Eq => Ok(Truth(a == b))
    case Ne => Ok(Truth(a != b))
    case BitAnd => AndBound(a, b); Ok(And(a, b))
    case BitXor => Ok(Wrap(a + b - 2 * And(a, b)))
    case BitOr => Ok(Wrap(a + b - And(a, b)))
    case LogAnd => Ok(Truth(a != 0 && b != 0))
    case LogOr => Ok(Truth(a != 0 || b != 0))
  }

  lemma WordIsPow2()
    ensures Pow2(64) == WORD
  {
    assert Pow2(8) == 256;
    Pow2Add(8, 8);
    assert Pow2(16) == 256 * 256;
    Pow2Add(16, 16);
    assert Pow2(32) == 65536 * 65536;
    Pow2Add(32, 32);
  }

  /** `r` has, at every bit, what `f` makes of the bits of `a` and `b`. */
  ghost predicate BitByBit(r: Result, a: Word, b: Word, f: (bool, bool) -> bool) {
    r.Ok? && forall k: nat :: Bit(r.value, k) <==> f(Bit(a, k), Bit(b, k))
  }

  /** The bitwise operators, bit by bit. */
  lemma BitwiseMeans(a: Word, b: Word)
    ensures BitByBit(Apply(BitAnd, a, b), a, b, (x, y) => x && y)
    ensures BitByBit(Apply(BitOr, a, b), a, b, (x, y) => x || y)
    ensures BitByBit(Apply(BitXor, a, b), a, b, (x, y) => x != y)
  {
    var s, d := a + b - And(a, b), a + b - 2 * And(a, b);
    BitwiseValues(a, b, s, d);
    forall k: nat
      ensures Bit(And(a, b), k) <==> Bit(a, k) && Bit(b, k)
      ensures Bit(s, k) <==> Bit(a, k) || Bit(b, k)
      ensures Bit(d, k) <==> Bit(a, k) != Bit(b, k)
    {
      AndBits(a, b, k);
      OrBits(a, b, s, k);
      XorBits(a, b, d, k);
    }
  }

  lemma BitwiseValues(a: Word, b: Word, s: int, d: int)
    requires s == a + b - And(a, b) && d == a + b - 2 * And(a, b)
    ensures 0 <= d <= s < WORD && Apply(BitAnd, a, b) == Ok(And(a, b)) && Apply(BitOr, a, b) == Ok(s) && Apply(BitXor, a, b) == Ok(d)
  {
    WordIsPow2();
    AndBelow(a, b);
    OrBelow(a, b, 64);
    Unwrapped(s);
    Unwrapped(d);
  }

  lemma Unwrapped(x: Word)
    ensures Wrap(x) == x
  {
  }

  /** What the arithmetic operators return: sums, differences and products modulo 2 to the 64th, unsigned quotients
      and remainders, and failure exactly for a division by zero. */
  lemma ArithmeticMeans(a: Word, b: Word)
    ensures Apply(Add, a, b).Ok? && (Apply(Add, a, b).value - (a + b)) % WORD == 0
    ensures Apply(Sub, a, b).Ok? && (Apply(Sub, a, b).value - (a - b)) % WORD == 0
    ensures Apply(Mul, a, b).Ok? && (Apply(Mul, a, b).value - a * b) % WORD == 0
    ensures Apply(Div, a, b).Fail? <==> b == 0
    ensures Apply(Rem, a, b).Fail? <==> b == 0
    ensures b != 0 ==> a == b * Apply(Div, a, b).value + Apply(Rem, a, b).value && Apply(Rem, a, b).value < b
  {
    Residue(a + b);
    Residue(a - b);
    Residue(a * b);
  }

  lemma Residue(x: int)
    ensures (x % WORD - x) % WORD == 0
  {
    assert x == WORD * (x / WORD) + x % WORD;
  }

  /** What comparisons and the logical operators return: 1 for true and 0 for false. */
  lemma ComparisonMeans(a: Word, b: Word)
    ensures Apply(Lt, a, b) == Ok(if a < b then 1 else 0) && Apply(Gt, a, b) == Ok(if b < a then 1 else 0)
    ensures Apply(Le, a, b) == Ok(if b < a then 0 else 1) && Apply(Ge, a, b) == Ok(if a < b then 0 else 1)
    ensures Apply(Eq, a, b) == Ok(if a == b then 1 else 0) && Apply(Ne, a, b) == Ok(if a == b then 0 else 1)
    ensures Apply(LogAnd, a, b) == Ok(if a == 0 || b == 0 then 0 else 1)
    ensures Apply(LogOr, a, b) == Ok(if a == 0 && b == 0 then 0 else 1)
  {
  }

  lemma QuotientWord(a: Word, b: Word)
    requires b != 0
    ensures 0 <= a / b < WORD
  {
  }

  // ---------------------------------------------------------------- evaluator

  /** The counter of unmatched closing parentheses after looking at tokens `i` down to `p + 1`. */
  function CheckScan(ts: seq<Token>, p: nat, i: int, m: nat): nat
    requires i < |ts|
    decreases i + 1 - p
  {
    if i <= p then m
    else CheckScan(ts, p, i - 1,
                   if ts[i].Close? then m + 1 else if ts[i].Open? && m > 0 then m - 1 else m)
  }

  /** Tokens `p` to `q` are one parenthesised group. */
  predicate CheckParentheses(ts: seq<Token>, p: nat, q: nat)
    requires p <= q < |ts|
  {
    ts[p].Open? && ts[q].Close? && CheckScan(ts, p, q - 1, 0) == 0
  }

  /** The opening parenthesis that brings the count `m` to 0, from `j` down to `p`; -1 if there is none. */
  function MatchBack(ts: seq<Token>, p: nat, j: int, m: nat): (k: int)
    requires j < |ts|
    ensures -1 <= k <= j || k == -1
    ensures k != -1 ==> p <= k
    decreases j + 1 - p
  {
    if j < p then -1
    else if ts[j].Close? then MatchBack(ts, p, j - 1, m + 1)
    else if ts[j].Open? then if m <= 1 then j else MatchBack(ts, p, j - 1, m - 1)
    else MatchBack(ts, p, j - 1, m)
  }

  /** The last operator of precedence `prior` outside parentheses, from `i` down to `p`; -1 if none. */
  function FindAt(ts: seq<Token>, p: nat, i: int, prior: nat): (k: int)
    requires i < |ts|
    ensures k != -1 ==> p <= k <= i && ts[k].Operator? && Prior(ts[k].op) == prior
    decreases i + 1 - p
  {
    if i < p then -1
    else if ts[i].Close? then
      var j := MatchBack(ts, p, i - 1, 1);
      FindAt(ts, p, (if j == -1 then i else j) - 1, prior)
    else if FindPrior(ts[i]) == prior then i
    else FindAt(ts, p, i - 1, prior)
  }

  /** The operator to split at: the loosest precedence first, the rightmost of it. */
  function FindOperator(ts: seq<Token>, p: nat, q: nat, prior: nat): (k: int)
    requires q < |ts|
    ensures k != -1 ==> p <= k <= q && ts[k].Operator?
  {
    if prior == 0 then -1
    else
      var k := FindAt(ts, p, q, prior);
      if k != -1 then k else FindOperator(ts, p, q, prior - 1)
  }

  /** The value of tokens `p` to `q`. */
  function Eval(ts: seq<Token>, p: nat, q: int, depth: nat): Result
    requires -1 <= q < |ts|
    decreases if depth > MAX_DEPTH then 0 else MAX_DEPTH + 1 - depth
  {
    if depth > MAX_DEPTH then Fail
    else if p > q then Ok(0)
    else if p == q then if ts[p].Number? then Ok(ts[p].value) else Ok(0)
    else if CheckParentheses(ts, p, q) then Eval(ts, p + 1, q - 1, depth + 1)
    else
      var k := FindOperator(ts, p, q, MAX_PRIOR);
      if k == -1 then Fail
      else
        var a := Eval(ts, p, k - 1, depth + 1);
        var b := Eval(ts, k + 1, q, depth + 1);
        if a.Fail? || b.Fail? then Fail else Apply(ts[k].op, a.value, b.value)
  }

  // --------------------------------------------------------------- the grammar

  /** How a token list is put together: numbers, operations, and groups in parentheses. */
  datatype Tree = Leaf(value: Word) | Node(op: Op, left: Tree, right: Tree) | Group(inner: Tree)

  /** The classes of C operators, from the tightest to the loosest. */
  datatype Level =
    | Primary | Multiplicative | Additive | Relational | Equality
    | BitwiseAnd | BitwiseXor | BitwiseOr | LogicalAnd | LogicalOr

  function Operators(c: Level): set<Op> {
    match c
    case Primary => {}
    case Multiplicative => {Mul, Div, Rem}
    case Additive => {Add, Sub}
    case Relational => {Lt, Gt, Le, Ge}
    case Equality => {Eq, Ne}
    case BitwiseAnd => {BitAnd}
    case BitwiseXor => {BitXor}
    case BitwiseOr => {BitOr}
    case LogicalAnd => {LogAnd}
    case LogicalOr => {LogOr}
  }

  /** The next tighter class. */
  function Tighter(c: Level): Level
    requires c != Primary
  {
    match c
    case Multiplicative => Primary
    case Additive => Multiplicative
    case Relational => Additive
    case Equality => Relational
    case BitwiseAnd => Equality
    case BitwiseXor => BitwiseAnd
    case BitwiseOr => BitwiseXor
    case LogicalAnd => BitwiseOr
    case LogicalOr => LogicalAnd
  }

  /** How many classes are tighter. */
  function Rank(c: Level): nat {
    match c
    case Primary => 0
    case Multiplicative => 1
    case Additive => 2
    case Relational => 3
    case Equality => 4
    case BitwiseAnd => 5
    case BitwiseXor => 6
    case BitwiseOr => 7
    case LogicalAnd => 8
    case LogicalOr => 9
  }

  /** The productions.  A class is an operation of the class, its left side of the same class and its right side of
      the next tighter one, or something of the next tighter class; a primary is a number or a group. */
  predicate Derives(c: Level, e: Tree)
    decreases e, Rank(c)
  {
    match e
    case Leaf(_) => true
    case Group(x) => Derives(LogicalOr, x)
    case Node(o, l, r) =>
      c != Primary &&
      if o in Operators(c) then Derives(c, l) && Derives(Tighter(c), r) else Derives(Tighter(c), e)
  }

  /** The tokens of a derivation. */
  function Print(e: Tree): (s: seq<Token>)
    ensures |s| > 0
  {
    match e
    case Leaf(v) => [Number(v)]
    case Group(x) => [Open] + Print(x) + [Close]
    case Node(o, l, r) => Print(l) + [Operator(o)] + Print(r)
  }

  /** The value of a derivation; a division by zero anywhere makes it fail. */
  function Meaning(e: Tree): Result {
    match e
    case Leaf(v) => Ok(v)
    case Group(x) => Meaning(x)
    case Node(o, l, r) =>
      var a, b := Meaning(l), Meaning(r);
      if a.Fail? || b.Fail? then Fail else Apply(o, a.value, b.value)
  }

  function Max(a: nat, b: nat): nat { if a < b then b else a }

  /** How deep the evaluator recurses. */
  function Depth(e: Tree): nat {
    match e
    case Leaf(_) => 0
    case Group(x) => 1 + Depth(x)
    case Node(_, l, r) => 1 + Max(Depth(l), Depth(r))
  }

  /** The loosest precedence outside groups. */
  function Loosest(e: Tree): nat { if e.Node? then Prior(e.op) else 0 }

  /** Grouped as precedence and left association need. */
  predicate Tight(e: Tree) {
    match e
    case Leaf(_) => true
    case Group(x) => Tight(x)
    case Node(o, l, r) => Loosest(l) <= Prior(o) && Loosest(r) < Prior(o) && Tight(l) && Tight(r)
  }

  /** The precedences of the source's table, by class. */
  function Bound(c: Level): nat {
    match c
    case Primary => 0
    case Multiplicative => 3
    case Additive => 4
    case Relational => 6
    case Equality => 7
    case BitwiseAnd => 8
    case BitwiseXor => 9
    case BitwiseOr => 10
    case LogicalAnd => 11
    case LogicalOr => 12
  }

  /** What the grammar derives is grouped as the table of precedences needs ... */
  lemma ClassBound(c: Level, o: Op)
    requires c != Primary
    ensures Bound(Tighter(c)) < Bound(c) && Rank(Tighter(c)) == Rank(c) - 1
    ensures o in Operators(c) ==> Prior(o) == Bound(c)
  {
  }

  lemma {:induction false} DerivedIsTight(c: Level, e: Tree)
    requires Derives(c, e)
    ensures Tight(e) && Loosest(e) <= Bound(c)
    decreases e, Rank(c)
  {
    match e
    case Leaf(_) =>
    case Group(x) => DerivedIsTight(LogicalOr, x);
    case Node(o, l, r) =>
      ClassBound(c, o);
      if o in Operators(c) {
        DerivedIsTight(c, l);
        DerivedIsTight(Tighter(c), r);
      } else {
        DerivedIsTight(Tighter(c), e);
      }
  }

  lemma ClassOf(o: Op) returns (c: Level)
    ensures c != Primary && o in Operators(c) && Prior(o) == Bound(c)
  {
    c := match o
      case Mul | Div | Rem => Multiplicative
      case Add | Sub => Additive
      case Lt | Gt | Le | Ge => Relational
      case Eq | Ne => Equality
      case BitAnd => BitwiseAnd
      case BitXor => BitwiseXor
      case BitOr => BitwiseOr
      case LogAnd => LogicalAnd
      case LogOr => LogicalOr;
  }

  lemma Neighbours(c: Level, d: Level)
    requires c != Primary && d != Primary
    ensures Bound(d) < Bound(c) ==> Bound(d) <= Bound(Tighter(c))
    ensures Bound(d) == Bound(c) ==> d == c
  {
  }

  /** ... and whatever is grouped so is derived by it. */
  lemma {:induction false} TightIsDerived(c: Level, e: Tree)
    requires Tight(e) && Loosest(e) <= Bound(c)
    ensures Derives(c, e)
    decreases e, Rank(c)
  {
    match e
    case Leaf(_) =>
    case Group(x) => TightIsDerived(LogicalOr, x);
    case Node(o, l, r) =>
      var d := ClassOf(o);
      ClassBound(c, o);
      Neighbours(c, d);
      if o in Operators(c) {
        TightIsDerived(c, l);
        Between(c, r);
        TightIsDerived(Tighter(c), r);
      } else {
        TightIsDerived(Tighter(c), e);
      }
  }

  /** Nothing is between two neighbouring classes. */
  lemma Between(c: Level, e: Tree)
    requires c != Primary && Loosest(e) < Bound(c)
    ensures Loosest(e) <= Bound(Tighter(c))
  {
    if e.Node? {
      var d := ClassOf(e.op);
      Neighbours(c, d);
    }
  }

  // ------------------------------------------- scanning over a printed piece

  /** Tokens `a` up to and excluding `b` print `e`. */
  ghost predicate At(e: Tree, ts: seq<Token>, a: int, b: int)
    decreases e, 0
  {
    && 0 <= a < b <= |ts|
    && match e
       case Leaf(v) => b == a + 1 && ts[a] == Number(v)
       case Group(x) => ts[a] == Open && ts[b - 1] == Close && At(x, ts, a + 1, b - 1)
       case Node(o, l, r) => exists k :: RootAt(o, l, r, ts, a, b, k)
  }

  /** ... with the operator at `k`. */
  ghost predicate RootAt(o: Op, l: Tree, r: Tree, ts: seq<Token>, a: int, b: int, k: int)
    decreases Node(o, l, r), 0, 0
  {
    0 <= a < k < b - 1 && b <= |ts| && ts[k] == Operator(o) && At(l, ts, a, k) && At(r, ts, k + 1, b)
  }

  predicate Has(ts: seq<Token>, a: int, s: seq<Token>) { 0 <= a && a + |s| <= |ts| && ts[a..a + |s|] == s }

  lemma HasAppend(ts: seq<Token>, a: int, x: seq<Token>, y: seq<Token>)
    requires Has(ts, a, x + y)
    ensures Has(ts, a, x) && Has(ts, a + |x|, y)
  {
    assert ts[a..a + |x + y|][..|x|] == ts[a..a + |x|];
    assert ts[a..a + |x + y|][|x|..] == ts[a + |x|..a + |x + y|];
  }

  lemma HasOne(ts: seq<Token>, a: int, t: Token)
    requires Has(ts, a, [t])
    ensures ts[a] == t
  {
    assert ts[a..a + 1][0] == ts[a];
  }

  lemma {:induction false} PrintedAt(e: Tree, ts: seq<Token>, a: int)
    requires Has(ts, a, Print(e))
    ensures At(e, ts, a, a + |Print(e)|)
  {
    match e
    case Leaf(v) => HasOne(ts, a, Number(v));
    case Group(x) =>
      GroupHas(Print(x), ts, a);
      PrintedAt(x, ts, a + 1);
    case Node(o, l, r) =>
      NodeHas(o, Print(l), Print(r), ts, a);
      PrintedAt(l, ts, a);
      PrintedAt(r, ts, a + |Print(l)| + 1);
      assert RootAt(o, l, r, ts, a, a + |Print(e)|, a + |Print(l)|);
  }

  lemma GroupHas(s: seq<Token>, ts: seq<Token>, a: int)
    requires Has(ts, a, [Open] + s + [Close])
    ensures Has(ts, a + 1, s) && ts[a] == Open && ts[a + 1 + |s|] == Close
  {
    HasAppend(ts, a, [Open] + s, [Close]);
    HasAppend(ts, a, [Open], s);
    HasOne(ts, a, Open);
    HasOne(ts, a + 1 + |s|, Close);
  }

  lemma NodeHas(o: Op, x: seq<Token>, y: seq<Token>, ts: seq<Token>, a: int)
    requires Has(ts, a, x + [Operator(o)] + y)
    ensures Has(ts, a, x) && ts[a + |x|] == Operator(o) && Has(ts, a + |x| + 1, y)
  {
    HasAppend(ts, a, x + [Operator(o)], y);
    HasAppend(ts, a, x, [Operator(o)]);
    HasOne(ts, a + |x|, Operator(o));
  }

  /** Where the operator of a printed operation is. */
  lemma RootOf(e: Tree, ts: seq<Token>, a: int, b: int) returns (k: int)
    requires At(e, ts, a, b) && e.Node?
    ensures RootAt(e.op, e.left, e.right, ts, a, b, k)
  {
    k :| RootAt(e.op, e.left, e.right, ts, a, b, k);
  }

  /** Counting parentheses backwards over a printed tree leaves the count as it was. */
  lemma {:induction false} MatchPast(e: Tree, ts: seq<Token>, p: nat, a: int, b: int, m: nat)
    requires At(e, ts, a, b) && p <= a && m > 0
    ensures MatchBack(ts, p, b - 1, m) == MatchBack(ts, p, a - 1, m)
  {
    if e.Group? {
      MatchPast(e.inner, ts, p, a + 1, b - 1, m + 1);
    } else if e.Node? {
      var k := RootOf(e, ts, a, b);
      MatchPast(e.right, ts, p, k + 1, b, m);
      MatchPast(e.left, ts, p, a, k, m);
    }
  }

  /** Looking for a looser operator passes over a printed tree, and over any group. */
  lemma {:induction false} FindPast(e: Tree, ts: seq<Token>, p: nat, a: int, b: int, prior: nat)
    requires Tight(e) && At(e, ts, a, b) && p <= a && prior > Loosest(e)
    ensures FindAt(ts, p, b - 1, prior) == FindAt(ts, p, a - 1, prior)
  {
    if e.Group? {
      MatchPast(e.inner, ts, p, a + 1, b - 1, 1);
      assert MatchBack(ts, p, b - 2, 1) == a;
    } else if e.Node? {
      var k := RootOf(e, ts, a, b);
      FindPast(e.right, ts, p, k + 1, b, prior);
      FindPast(e.left, ts, p, a, k, prior);
    }
  }

  /** The operator at the root is the one the evaluator splits at. */
  lemma {:induction false} FindsRoot(o: Op, l: Tree, r: Tree, ts: seq<Token>, a: nat, b: nat, k: int, prior: nat)
    requires Tight(Node(o, l, r)) && RootAt(o, l, r, ts, a, b, k) && Prior(o) <= prior
    ensures FindOperator(ts, a, b - 1, prior) == k
    decreases prior
  {
    if prior > Prior(o) {
      FindPast(Node(o, l, r), ts, a, a, b, prior);
      FindsRoot(o, l, r, ts, a, b, k, prior - 1);
    } else {
      FindPast(r, ts, a, k + 1, b, prior);
    }
  }

  // ---------------------------------------------------- the parentheses check

  lemma {:induction false} CheckPast(e: Tree, ts: seq<Token>, p: nat, a: int, b: int, m: nat)
    requires At(e, ts, a, b) && p < a
    ensures CheckScan(ts, p, b - 1, m) == CheckScan(ts, p, a - 1, m)
  {
    if e.Group? {
      CheckPast(e.inner, ts, p, a + 1, b - 1, m + 1);
    } else if e.Node? {
      var k := RootOf(e, ts, a, b);
      CheckPast(e.right, ts, p, k + 1, b, m);
      CheckPast(e.left, ts, p, a, k, m);
    }
  }

  /** Without its last parenthesis, a printed tree still leaves the counter at 0. */
  lemma {:induction false} TailPast(e: Tree, ts: seq<Token>, p: nat, a: int, b: int)
    requires At(e, ts, a, b) && p < a && ts[b - 1] == Close
    ensures CheckScan(ts, p, b - 2, 0) == CheckScan(ts, p, a - 1, 0)
  {
    if e.Group? {
      CheckPast(e.inner, ts, p, a + 1, b - 1, 0);
    } else if e.Node? {
      var k := RootOf(e, ts, a, b);
      TailPast(e.right, ts, p, k + 1, b);
      CheckPast(e.left, ts, p, a, k, 0);
    }
  }

  /** Without its first parenthesis, a printed tree leaves one closing parenthesis unmatched. */
  lemma {:induction false} HeadPast(e: Tree, ts: seq<Token>, p: nat, b: int, m: nat)
    requires At(e, ts, p, b) && ts[p] == Open
    ensures CheckScan(ts, p, b - 1, m) == m + 1
  {
    if e.Group? {
      CheckPast(e.inner, ts, p, p + 1, b - 1, m + 1);
    } else if e.Node? {
      var k := RootOf(e, ts, p, b);
      CheckPast(e.right, ts, p, k + 1, b, m);
      HeadPast(e.left, ts, p, k, m);
    }
  }

  /** The check never takes an operation for a group, even one that begins and ends with a parenthesis. */
  lemma CheckRejects(o: Op, l: Tree, r: Tree, ts: seq<Token>, a: nat, b: nat, k: int)
    requires RootAt(o, l, r, ts, a, b, k)
    ensures !CheckParentheses(ts, a, b - 1)
  {
    if ts[a] == Open && ts[b - 1] == Close {
      TailPast(r, ts, a, k + 1, b);
      HeadPast(l, ts, a, k, 0);
    }
  }

  lemma CheckAccepts(e: Tree, ts: seq<Token>, a: nat, b: nat)
    requires At(Group(e), ts, a, b)
    ensures CheckParentheses(ts, a, b - 1)
  {
    CheckPast(e, ts, a, a + 1, b - 1, 0);
  }

  // ------------------------------------------------------------- the theorem

  /** What a tree evaluates to at this depth. */
  function Expected(e: Tree, depth: nat): Result { if depth + Depth(e) <= MAX_DEPTH then Meaning(e) else Fail }

  function Both(o: Op, x: Result, y: Result): Result {
    if x.Fail? || y.Fail? then Fail else Apply(o, x.value, y.value)
  }

  lemma ExpectedNode(o: Op, l: Tree, r: Tree, depth: nat)
    requires depth <= MAX_DEPTH
    ensures Expected(Node(o, l, r), depth) == Both(o, Expected(l, depth + 1), Expected(r, depth + 1))
  {
  }

  lemma EvalSplits(o: Op, l: Tree, r: Tree, ts: seq<Token>, a: nat, b: nat, k: int, depth: nat)
    requires Tight(Node(o, l, r)) && RootAt(o, l, r, ts, a, b, k) && depth <= MAX_DEPTH
    ensures Eval(ts, a, b - 1, depth) == Both(o, Eval(ts, a, k - 1, depth + 1), Eval(ts, k + 1, b - 1, depth + 1))
  {
    CheckRejects(o, l, r, ts, a, b, k);
    FindsRoot(o, l, r, ts, a, b, k, MAX_PRIOR);
  }

  lemma EvalGroup(e: Tree, ts: seq<Token>, a: nat, b: nat, depth: nat)
    requires At(Group(e), ts, a, b) && depth <= MAX_DEPTH
    ensures Eval(ts, a, b - 1, depth) == Eval(ts, a + 1, b - 2, depth + 1)
  {
    CheckAccepts(e, ts, a, b);
  }

  lemma {:induction false} EvalPart(e: Tree, ts: seq<Token>, a: nat, b: nat, depth: nat)
    requires Tight(e) && At(e, ts, a, b)
    ensures Eval(ts, a, b - 1, depth) == Expected(e, depth)
  {
    if depth > MAX_DEPTH {
    } else if e.Group? {
      EvalGroup(e.inner, ts, a, b, depth);
      EvalPart(e.inner, ts, a + 1, b - 1, depth + 1);
    } else if e.Node? {
      var k := RootOf(e, ts, a, b);
      EvalSplits(e.op, e.left, e.right, ts, a, b, k, depth);
      EvalPart(e.left, ts, a, k, depth + 1);
      EvalPart(e.right, ts, k + 1, b, depth + 1);
      ExpectedNode(e.op, e.left, e.right, depth);
    }
  }

  lemma EvaluateFrom(e: Tree, ts: seq<Token>, a: nat, depth: nat)
    requires Tight(e) && ts == Print(e) && a == 0
    ensures Eval(ts, a, |ts| - 1, depth) == Expected(e, depth)
  {
    assert ts[a..a + |ts|] == ts;
    PrintedAt(e, ts, a);
    EvalPart(e, ts, a, |ts|, depth);
  }

  /** The evaluator agrees with the grammar: every token list that it derives evaluates to the value of the
      derivation if the recursion limit admits it, and fails if not. */
  lemma DerivedEvaluates(e: Tree, depth: nat)
    requires Derives(LogicalOr, e)
    ensures Eval(Print(e), 0, |Print(e)| - 1, depth) == if depth + Depth(e) <= MAX_DEPTH then Meaning(e) else Fail
  {
    DerivedIsTight(LogicalOr, e);
    EvaluateFrom(e, Print(e), 0, depth);
  }

  /** The same tree with the groups that precedence and left association need, and no others. */
  function Grouped(e: Tree): Tree {
    match e
    case Leaf(_) => e
    case Group(x) => Group(Grouped(x))
    case Node(o, l, r) =>
      Node(o, if Loosest(l) > Prior(o) then Group(Grouped(l)) else Grouped(l),
           if Loosest(r) >= Prior(o) then Group(Grouped(r)) else Grouped(r))
  }

  lemma {:induction false} GroupedRight(e: Tree)
    ensures Tight(Grouped(e)) && Loosest(Grouped(e)) == Loosest(e) && Meaning(Grouped(e)) == Meaning(e)
  {
    match e
    case Leaf(_) =>
    case Group(x) => GroupedRight(x);
    case Node(o, l, r) =>
      GroupedRight(l);
      GroupedRight(r);
  }

  /** Print, then evaluate: any tree at all, with the groups it needs, evaluates to its value. */
  lemma PrintThenEvaluate(e: Tree, depth: nat)
    ensures var s := Print(Grouped(e));
      Eval(s, 0, |s| - 1, depth) == if depth + Depth(Grouped(e)) <= MAX_DEPTH then Meaning(e) else Fail
    ensures Derives(LogicalOr, Grouped(e))
  {
    GroupedRight(e);
    TightIsDerived(LogicalOr, Grouped(e));
    EvaluateFrom(Grouped(e), Print(Grouped(e)), 0, depth);
  }

  // ---------------------------------------------------- the evaluator's loops

  /** The check, as a loop from the right. */
  method Check(ts: seq<Token>, p: nat, q: nat) returns (ok: bool)
    requires p <= q < |ts|
    ensures ok == CheckParentheses(ts, p, q)
  {
    var depth := 0;
    if ts[p].Open? && ts[q].Close? {
      var i: int := q - 1;
      while i >= p + 1
        invariant p - 1 <= i < q && 0 <= depth && CheckScan(ts, p, i, depth) == CheckScan(ts, p, q - 1, 0)
      {
        if ts[i].Close? {
          depth := depth + 1;
        } else if ts[i].Open? && depth > 0 {
          depth := depth - 1;
        }
        i := i - 1;
      }
    }
    ok := depth == 0 && ts[p].Open? && ts[q].Close?;
  }

  /** The parenthesis that matches the closing one at `i`, or `i` if there is none. */
  method SkipGroup(ts: seq<Token>, p: nat, i: nat) returns (at: int)
    requires p <= i < |ts|
    ensures var j := MatchBack(ts, p, i - 1, 1); at == if j == -1 then i else j
  {
    var depth, j := 1, i - 1;
    while j >= p
      invariant p - 1 <= j < i && depth >= 1 && MatchBack(ts, p, j, depth) == MatchBack(ts, p, i - 1, 1)
    {
      if ts[j].Close? {
        depth := depth + 1;
      } else if ts[j].Open? {
        depth := depth - 1;
        if depth == 0 { return j; }
      }
      j := j - 1;
    }
    at := i;
  }

  /** The last operator of this precedence outside parentheses. */
  method FindLast(ts: seq<Token>, p: nat, q: nat, prior: nat) returns (at: int)
    requires p <= q < |ts|
    ensures at == FindAt(ts, p, q, prior)
  {
    var i: int := q;
    while i >= p
      invariant p - 1 <= i <= q && FindAt(ts, p, i, prior) == FindAt(ts, p, q, prior)
      decreases i + 1 - p
    {
      if ts[i].Close? {
        i := SkipGroup(ts, p, i);
      } else if FindPrior(ts[i]) == prior {
        return i;
      }
      i := i - 1;
    }
    at := -1;
  }

  /** The operator to split at. */
  method FindSplit(ts: seq<Token>, p: nat, q: nat) returns (at: int)
    requires p <= q < |ts|
    ensures at == FindOperator(ts, p, q, MAX_PRIOR)
  {
    var prior := MAX_PRIOR;
    while prior != 0
      invariant 0 <= prior <= MAX_PRIOR && FindOperator(ts, p, q, prior) == FindOperator(ts, p, q, MAX_PRIOR)
      decreases prior
    {
      at := FindLast(ts, p, q, prior);
      if at != -1 { return; }
      prior := prior - 1;
    }
    at := -1;
  }

  lemma SplitEval(ts: seq<Token>, p: nat, q: nat, k: int, depth: nat)
    requires p < q < |ts| && depth <= MAX_DEPTH && !CheckParentheses(ts, p, q) && k == FindOperator(ts, p, q, MAX_PRIOR)
    ensures k == -1 ==> Eval(ts, p, q, depth) == Fail
    ensures k != -1 ==>
      Eval(ts, p, q, depth) == Both(ts[k].op, Eval(ts, p, k - 1, depth + 1), Eval(ts, k + 1, q, depth + 1))
  {
  }

  /** What the flag and the value say. */
  predicate Says(ok: bool, value: Word, r: Result) { ok == r.Ok? && (ok ==> value == r.value) }

  /** Both sides of the operator at `k`, and the operator on them. */
  method Operate(ts: seq<Token>, p: nat, k: nat, q: nat, depth: nat) returns (ok: bool, value: Word)
    requires p <= k <= q < |ts| && ts[k].Operator? && depth <= MAX_DEPTH
    ensures Says(ok, value, Both(ts[k].op, Eval(ts, p, k - 1, depth + 1), Eval(ts, k + 1, q, depth + 1)))
    decreases MAX_DEPTH + 1 - depth, 0
  {
    var a, b;
    ok, a := Evaluate(ts, p, k - 1, depth + 1);
    if !ok { return false, WORD - 1; }
    ok, b := Evaluate(ts, k + 1, q, depth + 1);
    if !ok { return false, WORD - 1; }
    var r := Apply(ts[k].op, a, b);
    if r.Fail? { return false, WORD - 1; }
    value := r.value;
  }

  /** Evaluate tokens `p` to `q`; `ok` is the success flag. */
  method Evaluate(ts: seq<Token>, p: nat, q: int, depth: nat) returns (ok: bool, value: Word)
    requires -1 <= q < |ts|
    ensures Says(ok, value, Eval(ts, p, q, depth))
    decreases if depth > MAX_DEPTH then 0 else MAX_DEPTH + 1 - depth, 1
  {
    if depth > MAX_DEPTH { return false, WORD - 1; }
    if p > q { return true, 0; }
    if p == q { return true, if ts[p].Number? then ts[p].value else 0; }
    var group := Check(ts, p, q);
    if group {
      ok, value := Evaluate(ts, p + 1, q - 1, depth + 1);
      return;
    }
    var k := FindSplit(ts, p, q);
    SplitEval(ts, p, q, k, depth);
    if k == -1 { return false, WORD - 1; }
    ok, value := Operate(ts, p, k, q, depth);
  }
}
