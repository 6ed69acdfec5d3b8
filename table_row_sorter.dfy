/**
 * `JObjectTableRowSorter`: the four built-in null-first comparators and
 * the resolution of the comparator for a column, first by column
 * index, then by the column's class and its superclasses.
 */
module TableRowSorter {
  import opened JavaLang
  import opened TableModel

  /* ---------------------------------------------------------------- */
  /* Values compared                                                   */
  /* ---------------------------------------------------------------- */

  /** `Enum.ordinal()` is a non-negative `int`. */
  type Ordinal = x: int | 0 <= x <= 0x7fff_ffff

  /** An enum constant: equal only to itself, that is, same type and same ordinal. */
  datatype EnumConstant = EnumConstant(enumType: string, ordinal: Ordinal)

  /** The boxed class of a `Number`; `equals` is false across classes. */
  datatype NumberKind = ByteNumber | ShortNumber | IntegerNumber | LongNumber | OtherNumber(className: string)

  /** A `Number` with an integral value; `value` stands for `doubleValue()`. */
  datatype JNumber = JNumber(kind: NumberKind, value: int)

  /** A `java.util.Date`, equal to another exactly when the times agree. */
  datatype Date = Date(time: int)

  /**
   * The part every built-in comparator shares: 0 for identical or
   * equal arguments, null before non-null, and otherwise `nonNull`.
   */
  function CompareNullsFirst<V(==)>(obj1: Option<V>, obj2: Option<V>, nonNull: (V, V) -> int): int {
    if obj1 == obj2 then 0
    else if obj1.None? then -1
    else if obj2.None? then 1
    else nonNull(obj1.value, obj2.value)
  }

  /** The outcome every built-in comparator gives before looking at the values. */
  predicate NullsFirst<V(==)>(obj1: Option<V>, obj2: Option<V>, r: int) {
    && (obj1 == obj2 ==> r == 0)
    && (obj1.None? && obj2.Some? ==> r == -1)
    && (obj1.Some? && obj2.None? ==> r == 1)
  }

  function ENUM_COMPARATOR(obj1: Option<EnumConstant>, obj2: Option<EnumConstant>): (r: int)
    ensures NullsFirst(obj1, obj2, r)
    ensures obj1.Some? && obj2.Some? && obj1 != obj2 ==> r == obj1.value.ordinal - obj2.value.ordinal
    ensures INT_MIN <= r <= INT_MAX
  {
    CompareNullsFirst(obj1, obj2, (a: EnumConstant, b: EnumConstant) => a.ordinal - b.ordinal)
  }

  function BOOLEAN_COMPARATOR(obj1: Option<bool>, obj2: Option<bool>): (r: int)
    ensures NullsFirst(obj1, obj2, r)
    ensures obj1 == Some(false) && obj2 == Some(true) ==> r < 0
    ensures obj1 == Some(true) && obj2 == Some(false) ==> r > 0
  {
    CompareNullsFirst(obj1, obj2, (a: bool, b: bool) => if a == b then 0 else if a then 1 else -1)
  }

  function NUMBER_COMPARATOR(obj1: Option<JNumber>, obj2: Option<JNumber>): (r: int)
    ensures NullsFirst(obj1, obj2, r)
    ensures obj1.Some? && obj2.Some? && obj1 != obj2 ==>
      r == (if obj1.value.value > obj2.value.value then 1 else -1)
  {
    CompareNullsFirst(obj1, obj2, (a: JNumber, b: JNumber) => if a.value > b.value then 1 else -1)
  }

  function DATE_COMPARATOR(obj1: Option<Date>, obj2: Option<Date>): (r: int)
    ensures NullsFirst(obj1, obj2, r)
    ensures obj1.Some? && obj2.Some? && obj1 != obj2 ==>
      r == (if obj1.value.time > obj2.value.time then 1 else -1)
  {
    CompareNullsFirst(obj1, obj2, (a: Date, b: Date) => if a.time > b.time then 1 else -1)
  }

  /** The enum, boolean and date comparators are antisymmetric, as a `Comparator` must be. */
  lemma EnumAntisymmetric(obj1: Option<EnumConstant>, obj2: Option<EnumConstant>)
    ensures ENUM_COMPARATOR(obj1, obj2) == -ENUM_COMPARATOR(obj2, obj1)
  {
  }

  lemma BooleanAntisymmetric(obj1: Option<bool>, obj2: Option<bool>)
    ensures BOOLEAN_COMPARATOR(obj1, obj2) == -BOOLEAN_COMPARATOR(obj2, obj1)
  {
  }

  lemma DateAntisymmetric(obj1: Option<Date>, obj2: Option<Date>)
    ensures DATE_COMPARATOR(obj1, obj2) == -DATE_COMPARATOR(obj2, obj1)
  {
  }

  /** The number comparator never answers 0 for two numbers that are not `equals`. */
  lemma NumberZeroOnlyWhenEqual(obj1: Option<JNumber>, obj2: Option<JNumber>)
    ensures NUMBER_COMPARATOR(obj1, obj2) == 0 <==> obj1 == obj2
  {
  }

  /**
   * Two numbers of different classes with the same value (an `Integer`
   * 1 and a `Long` 1) each compare below the other.
   */
  lemma NumberSameValueBothBelow(n1: JNumber, n2: JNumber)
    requires n1.kind != n2.kind && n1.value == n2.value
    ensures NUMBER_COMPARATOR(Some(n1), Some(n2)) == -1
    ensures NUMBER_COMPARATOR(Some(n2), Some(n1)) == -1
  {
  }

  /** Apart from that case the number comparator is antisymmetric. */
  lemma NumberAntisymmetric(obj1: Option<JNumber>, obj2: Option<JNumber>)
    requires obj1.Some? && obj2.Some? ==> obj1 == obj2 || obj1.value.value != obj2.value.value
    ensures NUMBER_COMPARATOR(obj1, obj2) == -NUMBER_COMPARATOR(obj2, obj1)
  {
  }

  /* ---------------------------------------------------------------- */
  /* Comparator resolution                                             */
  /* ---------------------------------------------------------------- */

  /** A registered comparator: one of the built-in four, or one supplied by the application. */
  datatype ComparatorRef = EnumComparator | BooleanComparator | NumberComparator | DateComparator | CustomComparator(id: nat)

  const ENUM_CLASS: JClass := RefClass("java.lang.Enum")
  const BOOLEAN_CLASS: JClass := RefClass("java.lang.Boolean")
  const NUMBER_CLASS: JClass := RefClass("java.lang.Number")
  const DATE_CLASS: JClass := RefClass("java.util.Date")

  /** The class map after construction. */
  const DEFAULT_CLASS_COMPARATORS: map<JClass, Option<ComparatorRef>> := map[
    ENUM_CLASS := Some(EnumComparator),
    BOOLEAN_CLASS := Some(BooleanComparator),
    NUMBER_CLASS := Some(NumberComparator),
    DATE_CLASS := Some(DateComparator)]

  /**
   * `depth` ranks a superclass map: every class with a superclass is
   * ranked above it, so walking up the map ends.
   */
  ghost predicate RankedHierarchy(superclass: map<JClass, JClass>, depth: map<JClass, nat>) {
    forall c :: c in superclass ==> c in depth && superclass[c] in depth && depth[superclass[c]] < depth[c]
  }

  ghost function Rank(depth: map<JClass, nat>, c: JClass): nat {
    if c in depth then depth[c] else 0
  }

  /** `Class.getSuperclass()`: null for `Object`, interfaces and primitives. */
  function SuperclassOf(superclass: map<JClass, JClass>, c: JClass): Option<JClass> {
    if c in superclass then Some(superclass[c]) else None
  }

  /** `HashMap.get`: null for a missing key and for a key mapped to null. */
  function Lookup<K>(m: map<K, Option<ComparatorRef>>, key: K): Option<ComparatorRef> {
    if key in m then m[key] else None
  }

  /** A class followed by its superclasses, up to the top of the chain. */
  ghost function SuperclassChain(superclass: map<JClass, JClass>, depth: map<JClass, nat>, c: JClass): (chain: seq<JClass>)
    requires RankedHierarchy(superclass, depth)
    ensures |chain| > 0 && chain[0] == c
    ensures forall k :: 0 <= k < |chain| - 1 ==> SuperclassOf(superclass, chain[k]) == Some(chain[k + 1])
    ensures SuperclassOf(superclass, chain[|chain| - 1]).None?
    decreases Rank(depth, c)
  {
    if c in superclass then [c] + SuperclassChain(superclass, depth, superclass[c]) else [c]
  }

  /** The comparator the class walk finds, starting from `clazz` (null ends the walk). */
  ghost function ResolveClassComparator(classComparators: map<JClass, Option<ComparatorRef>>,
      superclass: map<JClass, JClass>, depth: map<JClass, nat>, clazz: Option<JClass>): (r: Option<ComparatorRef>)
    requires RankedHierarchy(superclass, depth)
    ensures clazz.Some? && Lookup(classComparators, clazz.value).Some? ==> r == Lookup(classComparators, clazz.value)
    ensures r.Some? ==> exists c :: c in classComparators && classComparators[c] == r
    decreases if clazz.Some? then Rank(depth, clazz.value) + 1 else 0
  {
    if clazz.None? then None
    else
      var out := Lookup(classComparators, clazz.value);
      if out.Some? then out
      else ResolveClassComparator(classComparators, superclass, depth, SuperclassOf(superclass, clazz.value))
  }

  /**
   * The walk finds the comparator registered (non-null) for the nearest
   * class of the chain that has one, and null when no class of the
   * chain has one.
   */
  lemma {:induction false} ResolveIsFirstOnChain(classComparators: map<JClass, Option<ComparatorRef>>,
      superclass: map<JClass, JClass>, depth: map<JClass, nat>, c: JClass)
    requires RankedHierarchy(superclass, depth)
    ensures var chain := SuperclassChain(superclass, depth, c);
      var r := ResolveClassComparator(classComparators, superclass, depth, Some(c));
      && (r.None? <==> forall k :: 0 <= k < |chain| ==> Lookup(classComparators, chain[k]).None?)
      && (r.Some? ==>
            exists k :: 0 <= k < |chain| && Lookup(classComparators, chain[k]) == r &&
              (forall j :: 0 <= j < k ==> Lookup(classComparators, chain[j]).None?))
    decreases Rank(depth, c)
  {
    var chain := SuperclassChain(superclass, depth, c);
    var r := ResolveClassComparator(classComparators, superclass, depth, Some(c));
    if Lookup(classComparators, c).Some? {
      assert Lookup(classComparators, chain[0]) == r;
    } else if c in superclass {
      var s := superclass[c];
      ResolveIsFirstOnChain(classComparators, superclass, depth, s);
      var rest := SuperclassChain(superclass, depth, s);
      assert chain == [c] + rest;
      assert r == ResolveClassComparator(classComparators, superclass, depth, Some(s));
      if r.Some? {
        var k :| 0 <= k < |rest| && Lookup(classComparators, rest[k]) == r &&
          forall j :: 0 <= j < k ==> Lookup(classComparators, rest[j]).None?;
        assert chain[k + 1] == rest[k];
        forall j | 0 <= j < k + 1 ensures Lookup(classComparators, chain[j]).None? {
          if j > 0 { assert chain[j] == rest[j - 1]; }
        }
      } else {
        forall k | 0 <= k < |chain| ensures Lookup(classComparators, chain[k]).None? {
          if k > 0 { assert chain[k] == rest[k - 1]; }
        }
      }
    } else {
      assert chain == [c];
    }
  }

  /** The sorter of one `JObjectTableModel`. */
  class JObjectTableRowSorter<T(==)> {
    const model: JObjectTableModel<T>
    /** The superclass of each class that has one. */
    const superclass: map<JClass, JClass>
    ghost const depth: map<JClass, nat>
    /** Class and column comparator maps; a key may be mapped to null. */
    var classComparators: map<JClass, Option<ComparatorRef>>
    var columnComparators: map<int, Option<ComparatorRef>>

    ghost predicate Valid() {
      RankedHierarchy(superclass, depth)
    }

    /** Registers the built-in comparators for Enum, Boolean, Number and Date. */
    constructor (model: JObjectTableModel<T>, superclass: map<JClass, JClass>, ghost depth: map<JClass, nat>)
      requires RankedHierarchy(superclass, depth)
      ensures Valid()
      ensures this.model == model && this.superclass == superclass && this.depth == depth
      ensures classComparators == DEFAULT_CLASS_COMPARATORS
      ensures columnComparators == map[]
    {
      this.model := model;
      this.superclass := superclass;
      this.depth := depth;
      columnComparators := map[];
      classComparators := map[];
      new;
      SetClassComparator(ENUM_CLASS, Some(EnumComparator));
      SetClassComparator(BOOLEAN_CLASS, Some(BooleanComparator));
      SetClassComparator(NUMBER_CLASS, Some(NumberComparator));
      SetClassComparator(DATE_CLASS, Some(DateComparator));
    }

    /** The comparator used for a column when no column override is registered. */
    ghost function ClassComparatorFor(clazz: JClass): Option<ComparatorRef>
      reads this
      requires Valid()
    {
      ResolveClassComparator(classComparators, superclass, depth, Some(clazz))
    }

    /** Column `column` is sortable exactly when its annotation says so. */
    function IsSortable(column: int): (r: Result<bool>)
      ensures r.Ok? <==> 0 <= column < |model.columnList|
      ensures r.Ok? ==> r.value == model.columnList[column].sortable
      ensures r.Throws? ==> r.error == IndexOutOfBounds
    {
      if 0 <= column < |model.columnList| then Ok(model.columnList[column].sortable) else Throws(IndexOutOfBounds)
    }

    /**
     * A column override wins whenever one is registered (even null);
     * otherwise the walk up from the column's class finds the nearest
     * registered comparator, or null.
     */
    method GetComparator(column: int) returns (r: Result<Option<ComparatorRef>>)
      requires Valid()
      ensures column in columnComparators ==> r == Ok(columnComparators[column])
      ensures column !in columnComparators && !(0 <= column < |model.columnList|) ==> r == Throws(IndexOutOfBounds)
      ensures column !in columnComparators && 0 <= column < |model.columnList| ==>
        r == Ok(ClassComparatorFor(model.columnList[column].dataType))
    {
      if column in columnComparators {
        return Ok(columnComparators[column]);
      }
      var columnClass := model.GetColumnClass(column);
      if columnClass.Throws? {
        return Throws(columnClass.error);
      }
      var clazz: Option<JClass> := Some(columnClass.value);
      var out: Option<ComparatorRef> := None;
      while out.None? && clazz.Some?
        invariant out.None? ==>
          ResolveClassComparator(classComparators, superclass, depth, clazz) == ClassComparatorFor(columnClass.value)
        invariant out.Some? ==> out == ClassComparatorFor(columnClass.value)
        decreases (if out.None? then 1 else 0), (if clazz.Some? then Rank(depth, clazz.value) + 1 else 0)
      {
        out := Lookup(classComparators, clazz.value);
        if out.None? {
          clazz := SuperclassOf(superclass, clazz.value);
        }
      }
      return Ok(out);
    }

    /** Registers (or replaces) the comparator of a class. */
    method SetClassComparator(clazz: JClass, comparator: Option<ComparatorRef>)
      modifies this
      ensures classComparators == old(classComparators)[clazz := comparator]
      ensures columnComparators == old(columnComparators)
    {
      classComparators := classComparators[clazz := comparator];
    }

    /** Registers (or replaces) the comparator of one column. */
    method SetColumnComparator(columnIndex: int, comparator: Option<ComparatorRef>)
      modifies this
      ensures columnComparators == old(columnComparators)[columnIndex := comparator]
      ensures classComparators == old(classComparators)
    {
      columnComparators := columnComparators[columnIndex := comparator];
    }
  }

  /**
   * With the built-in registrations, a class whose chain reaches
   * `Number` before any other registered class sorts with the number
   * comparator (`Integer` and `Long` columns, say).
   */
  lemma {:induction false} NumberSubclassUsesNumberComparator(superclass: map<JClass, JClass>, depth: map<JClass, nat>, c: JClass)
    requires RankedHierarchy(superclass, depth)
    requires NUMBER_CLASS in SuperclassChain(superclass, depth, c)
    requires forall d :: d in SuperclassChain(superclass, depth, c) && d in DEFAULT_CLASS_COMPARATORS ==> d == NUMBER_CLASS
    ensures ResolveClassComparator(DEFAULT_CLASS_COMPARATORS, superclass, depth, Some(c)) == Some(NumberComparator)
    decreases Rank(depth, c)
  {
    if c != NUMBER_CLASS {
      assert c !in DEFAULT_CLASS_COMPARATORS;
      var chain := SuperclassChain(superclass, depth, c);
      assert c in superclass;
      var rest := SuperclassChain(superclass, depth, superclass[c]);
      assert chain == [c] + rest;
      NumberSubclassUsesNumberComparator(superclass, depth, superclass[c]);
    }
  }

  /** A class registration takes effect for that class itself at once. */
  lemma RegisteredClassResolves(classComparators: map<JClass, Option<ComparatorRef>>,
      superclass: map<JClass, JClass>, depth: map<JClass, nat>, clazz: JClass, comparator: ComparatorRef)
    requires RankedHierarchy(superclass, depth)
    ensures ResolveClassComparator(classComparators[clazz := Some(comparator)], superclass, depth, Some(clazz)) == Some(comparator)
  {
  }
}
