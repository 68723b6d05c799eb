/** The values a validation run talks about.

    Kotlin validates values of any type `V` and records them as `Any?` in a
    violation. The model fixes one universe of values, large enough for the
    rule catalog: null, booleans, integers, strings, and lists (the `Iterable`
    arguments of `In`, `ContainsAll` and friends). */
module Values {

  datatype Value =
    | NullV
    | BoolV(b: bool)
    | IntV(i: int)
    | StrV(s: string)
    | ListV(items: seq<Value>)

  /** Kotlin's `Int`: the type of the `min`/`max` bounds of `Size`,
      `IntegerDigits` and `DecimalDigits`, and of `String.length`. */
  type Int32 = x: int | -0x8000_0000 <= x < 0x8000_0000

  /** `Int.MIN_VALUE` and `Int.MAX_VALUE`, the "bound not given" sentinels. */
  const IntMin: Int32 := -0x8000_0000
  const IntMax: Int32 := 0x7fff_ffff

  function Strs(xs: seq<string>): (r: seq<Value>)
    ensures |r| == |xs| && forall k :: 0 <= k < |xs| ==> r[k] == StrV(xs[k])
  {
    if xs == [] then [] else [StrV(xs[0])] + Strs(xs[1..])
  }

  /** Wrapping strings as values keeps them apart. */
  lemma StrsKeepDistinct(xs: seq<string>)
    ensures NoDuplicates(Strs(xs)) <==> NoDuplicates(xs)
  {
    var r := Strs(xs);
    if !NoDuplicates(xs) {
      var j, k :| 0 <= j < k < |xs| && xs[j] == xs[k];
      assert r[j] == r[k];
    }
  }

  /** `Any?.toString()` for the values of the model. */
  function Show(v: Value): string
    decreases v
  {
    match v
    case NullV => "null"
    case BoolV(b) => if b then "true" else "false"
    case IntV(i) => if i < 0 then "-" + Decimal(-i) else Decimal(i)
    case StrV(s) => s
    case ListV(items) => "[" + ShowItems(items) + "]"
  }

  /** The elements of a list, separated by ", " as `List.toString()` does. */
  function ShowItems(items: seq<Value>): string
    decreases items
  {
    if items == [] then ""
    else if |items| == 1 then Show(items[0])
    else Show(items[0]) + ", " + ShowItems(items[1..])
  }

  function Decimal(n: nat): (r: string)
    ensures |r| > 0 && forall k :: 0 <= k < |r| ==> '0' <= r[k] <= '9'
  {
    if n < 10 then [Digit(n)] else Decimal(n / 10) + [Digit(n % 10)]
  }

  function Digit(d: nat): char
    requires d < 10
  {
    ['0', '1', '2', '3', '4', '5', '6', '7', '8', '9'][d]
  }

  predicate NoDuplicates<T(==)>(xs: seq<T>) {
    forall j, k :: 0 <= j < k < |xs| ==> xs[j] != xs[k]
  }

  /** `Array.toSet()`: a `LinkedHashSet` that keeps the first occurrence of
      every element, in order of first occurrence. */
  function ToSet<T(==,!new)>(xs: seq<T>): (r: seq<T>)
    ensures forall x :: x in r <==> x in xs
    ensures NoDuplicates(r)
    ensures |r| <= |xs|
  {
    if xs == [] then []
    else
      var init := ToSet(xs[..|xs| - 1]);
      var last := xs[|xs| - 1];
      assert xs == xs[..|xs| - 1] + [last];
      if last in init then init else init + [last]
  }

  /** An argument list that already has no duplicates is kept as it is. */
  lemma {:induction false} ToSetKeepsDistinct<T(!new)>(xs: seq<T>)
    requires NoDuplicates(xs)
    ensures ToSet(xs) == xs
  {
    if xs != [] {
      var init := xs[..|xs| - 1];
      assert NoDuplicates(init);
      ToSetKeepsDistinct(init);
      assert xs[|xs| - 1] !in init;
      assert xs == init + [xs[|xs| - 1]];
    }
  }

  /** The list argument of a rule: a Kotlin `vararg` array, which the rule
      collects with `toSet()` before recording it, or an `Iterable`, which it
      records as given. Either way the rule's predicate looks at `items`. */
  datatype Args<T> = Vararg(items: seq<T>) | Iterable(items: seq<T>)

  /** The string arguments of a string rule, as values. */
  function StrArgs(args: Args<string>): (r: Args<Value>)
    ensures r.Vararg? <==> args.Vararg?
    ensures |r.items| == |args.items|
    ensures forall k :: 0 <= k < |args.items| ==> r.items[k] == StrV(args.items[k])
  {
    match args
    case Vararg(items) => Vararg(Strs(items))
    case Iterable(items) => Iterable(Strs(items))
  }

  /** A collection a descriptor holds. The vararg overloads record the
      `LinkedHashSet` that `toSet()` builds, kept here in its iteration
      order; the `Iterable` overloads record the caller's collection as
      given, taken here to be a `List`. */
  datatype Coll<T> = SetOf(elems: seq<T>) | ListOf(elems: seq<T>)

  /** Kotlin's `equals` between two such collections: two sets are equal
      when they have the same members, in whatever order (`AbstractSet`);
      two lists when they hold the same elements in the same order
      (`AbstractList`); a set never equals a list. */
  predicate SameColl<T(==)>(a: Coll<T>, b: Coll<T>) {
    match a
    case SetOf(x) => b.SetOf? && (forall e | e in x :: e in b.elems) && (forall e | e in b.elems :: e in x)
    case ListOf(x) => b.ListOf? && x == b.elems
  }

  /** `SameColl` is an equivalence, as `equals` must be. */
  lemma SameCollIsEquivalence<T(!new)>(a: Coll<T>, b: Coll<T>, c: Coll<T>)
    ensures SameColl(a, a)
    ensures SameColl(a, b) ==> SameColl(b, a)
    ensures SameColl(a, b) && SameColl(b, c) ==> SameColl(a, c)
  {
  }

  /** The collection a rule records in its constraint for `args`: a set of
      the arguments for a vararg, the arguments as given for an
      `Iterable`. */
  function Collected<T(==,!new)>(args: Args<T>): (r: Coll<T>)
    ensures forall x :: x in r.elems <==> x in args.items
    ensures r.SetOf? <==> args.Vararg?
    ensures r.SetOf? ==> NoDuplicates(r.elems)
    ensures r.ListOf? ==> r.elems == args.items
  {
    match args
    case Vararg(items) => SetOf(ToSet(items))
    case Iterable(items) => ListOf(items)
  }

  /** The two overloads record collections with the same members that
      Kotlin never finds equal, a set not being a list. The set holds each
      argument once, in order of first occurrence, so the two iterate
      alike exactly when the arguments have no repeats. */
  lemma CollectedAgree<T(!new)>(items: seq<T>)
    ensures !SameColl(Collected(Vararg(items)), Collected(Iterable(items)))
    ensures Collected(Vararg(items)).elems == Collected(Iterable(items)).elems <==> NoDuplicates(items)
  {
    if NoDuplicates(items) {
      ToSetKeepsDistinct(items);
    }
  }

  /** Two vararg lists with the same members, whatever their order and
      repeats, record equal sets; two `Iterable`s record equal lists only
      when they are the same sequence. */
  lemma CollectedOrder<T(!new)>(xs: seq<T>, ys: seq<T>)
    ensures (forall e :: e in xs <==> e in ys) ==> SameColl(Collected(Vararg(xs)), Collected(Vararg(ys)))
    ensures SameColl(Collected(Iterable(xs)), Collected(Iterable(ys))) <==> xs == ys
  {
  }
}
