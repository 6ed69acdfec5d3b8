/**
 * `JObjectTableModel`: a table model whose columns are the annotated
 * getters of a row class, found by reflection, and whose rows are a
 * list of objects of that class.
 *
 * Reflection is replaced by `MethodInfo` records (name, parameter
 * types, visibility, return type, annotation); the row class is given
 * as the list `Class.getMethods()` would return.
 */
module TableModel {
  import opened JavaLang
  import opened TableColumnAnnotation

  /** What reflection reports about one public method of the row class. */
  datatype MethodInfo = MethodInfo(
    name: string,
    parameterTypes: seq<JClass>,
    isPublic: bool,
    returnType: JClass,
    annotation: Option<JObjectTableColumn>)

  /** The descriptor the model keeps for one displayed column. */
  datatype Column = Column(
    name: string,
    order: int32,
    tip: Option<string>,
    sortable: bool,
    editable: bool,
    dataType: JClass,
    getterMethod: MethodInfo,
    setterMethod: Option<MethodInfo>)

  /** The change notifications the model fires at its listeners. */
  datatype TableEvent =
    | TableDataChanged
    | TableRowsInserted(first: int, last: int)
    | TableRowsDeleted(first: int, last: int)

  /* ---------------------------------------------------------------- */
  /* Getter and setter names                                           */
  /* ---------------------------------------------------------------- */

  /** "set" followed by an upper-case letter. */
  function IsSetterName(methodName: string): (r: bool)
    ensures r <==> |methodName| >= 4 && StartsWith(methodName, "set") && IsUpperCase(methodName[3])
  {
    if StartsWith(methodName, "set") then
      if |methodName| < 4 then false else IsUpperCase(methodName[3])
    else
      false
  }

  /** "is" or "get" followed by an upper-case letter. */
  function IsGetterName(methodName: string): (r: bool)
    ensures r <==>
      || (|methodName| >= 3 && StartsWith(methodName, "is") && IsUpperCase(methodName[2]))
      || (|methodName| >= 4 && StartsWith(methodName, "get") && IsUpperCase(methodName[3]))
  {
    if StartsWith(methodName, "is") then
      assert methodName[..2][0] == 'i';
      if |methodName| < 3 then false else IsUpperCase(methodName[2])
    else if StartsWith(methodName, "get") then
      if |methodName| < 4 then false else IsUpperCase(methodName[3])
    else
      false
  }

  /** Drops the "is" (or "get"/"set") prefix and lower-cases the next character. */
  function TruncateMethodName(methodName: string, isPrefix: bool): (r: string)
    requires if isPrefix then |methodName| >= 3 else |methodName| >= 4
    ensures var p := if isPrefix then 2 else 3;
      |r| == |methodName| - p && r[0] == ToLowerCase(methodName[p]) && r[1..] == methodName[p + 1..]
    ensures var p := if isPrefix then 2 else 3;
      IsUpperCase(methodName[p]) ==> IsLowerCase(r[0]) && methodName == methodName[..p] + [ToUpperCase(r[0])] + r[1..]
  {
    if isPrefix then [ToLowerCase(methodName[2])] + methodName[3..]
    else [ToLowerCase(methodName[3])] + methodName[4..]
  }

  /**
   * The field a getter or setter name stands for (`isHidden` gives
   * `hidden`, `setColor` gives `color`); any other name is returned as is.
   */
  function GetFieldName(methodName: string): (r: string)
    ensures IsGetterName(methodName) && StartsWith(methodName, "is") ==>
      r == [ToLowerCase(methodName[2])] + methodName[3..]
    ensures (IsGetterName(methodName) && StartsWith(methodName, "get")) || IsSetterName(methodName) ==>
      r == [ToLowerCase(methodName[3])] + methodName[4..]
    ensures IsGetterName(methodName) || IsSetterName(methodName) ==> |r| > 0 && IsLowerCase(r[0])
    ensures !IsGetterName(methodName) && !IsSetterName(methodName) ==> r == methodName
  {
    if IsGetterName(methodName) then
      if StartsWith(methodName, "is") then TruncateMethodName(methodName, true)
      else TruncateMethodName(methodName, false)
    else if IsSetterName(methodName) then
      TruncateMethodName(methodName, false)
    else
      methodName
  }

  /** The setter name for a field: "set", the first character upper-cased, the rest. */
  function GetSetterName(name: string): (r: string)
    requires |name| > 0
    ensures |r| == |name| + 3 && StartsWith(r, "set") && r[4..] == name[1..]
    ensures r[3] == ToUpperCase(name[0])
    ensures IsLowerCase(name[0]) ==> IsSetterName(r)
  {
    "set" + [ToUpperCase(name[0])] + name[1..]
  }

  /** For a getter `getXyz` the setter looked up is `setXyz`. */
  lemma GetterSetterName(methodName: string)
    requires IsGetterName(methodName) && StartsWith(methodName, "get")
    ensures GetSetterName(GetFieldName(methodName)) == "set" + methodName[3..]
  {
    var f := GetFieldName(methodName);
    assert f[0] == ToLowerCase(methodName[3]);
    UpperLowerUpper(methodName[3]);
    assert [ToUpperCase(f[0])] + f[1..] == methodName[3..];
  }

  /** For a getter `isXyz` the setter looked up is `setXyz`. */
  lemma IsGetterSetterName(methodName: string)
    requires IsGetterName(methodName) && StartsWith(methodName, "is")
    ensures GetSetterName(GetFieldName(methodName)) == "set" + methodName[2..]
  {
    var f := GetFieldName(methodName);
    assert f[0] == ToLowerCase(methodName[2]);
    UpperLowerUpper(methodName[2]);
    assert [ToUpperCase(f[0])] + f[1..] == methodName[2..];
  }

  /** Field name and setter name are inverse on fields that start in lower case. */
  lemma FieldSetterRoundTrip(name: string)
    requires |name| > 0 && IsLowerCase(name[0])
    ensures GetFieldName(GetSetterName(name)) == name
  {
    var s := GetSetterName(name);
    assert !StartsWith(s, "is") by { assert s[0] == 's'; }
    assert s[4..] == name[1..];
  }

  /* ---------------------------------------------------------------- */
  /* Primitive column types                                            */
  /* ---------------------------------------------------------------- */

  /** The boxed class of each of the nine primitive classes. */
  const PRIMITIVE_TO_CLASS_MAP: map<JClass, JClass> := map[
    PrimitiveClass(VoidType) := RefClass("java.lang.Void"),
    PrimitiveClass(BooleanType) := RefClass("java.lang.Boolean"),
    PrimitiveClass(ByteType) := RefClass("java.lang.Byte"),
    PrimitiveClass(ShortType) := RefClass("java.lang.Short"),
    PrimitiveClass(CharType) := RefClass("java.lang.Character"),
    PrimitiveClass(IntType) := RefClass("java.lang.Integer"),
    PrimitiveClass(FloatType) := RefClass("java.lang.Float"),
    PrimitiveClass(LongType) := RefClass("java.lang.Long"),
    PrimitiveClass(DoubleType) := RefClass("java.lang.Double")]

  /** Boxes a primitive class; every other class comes back unchanged. */
  function UpgradePrimitiveType(clazz: JClass): (r: JClass)
    ensures r.RefClass?
    ensures clazz.RefClass? ==> r == clazz
    ensures clazz.PrimitiveClass? ==> r in PRIMITIVE_TO_CLASS_MAP.Values
  {
    PrimitivesAreMapped(clazz);
    if clazz in PRIMITIVE_TO_CLASS_MAP then PRIMITIVE_TO_CLASS_MAP[clazz] else clazz
  }

  /** The map has an entry, a reference class, for every primitive class and for nothing else. */
  lemma PrimitivesAreMapped(clazz: JClass)
    ensures clazz in PRIMITIVE_TO_CLASS_MAP <==> clazz.PrimitiveClass?
    ensures clazz in PRIMITIVE_TO_CLASS_MAP ==> PRIMITIVE_TO_CLASS_MAP[clazz].RefClass?
  {
    match clazz
    case RefClass(_) =>
    case PrimitiveClass(p) =>
      match p
      case VoidType =>
      case BooleanType =>
      case ByteType =>
      case ShortType =>
      case CharType =>
      case IntType =>
      case FloatType =>
      case LongType =>
      case DoubleType =>
  }

  /** Boxing twice is boxing once. */
  lemma UpgradeIdempotent(clazz: JClass)
    ensures UpgradePrimitiveType(UpgradePrimitiveType(clazz)) == UpgradePrimitiveType(clazz)
  {
  }

  /** Distinct primitives box to distinct classes. */
  lemma UpgradeInjective(p: Primitive, q: Primitive)
    requires p != q
    ensures UpgradePrimitiveType(PrimitiveClass(p)) != UpgradePrimitiveType(PrimitiveClass(q))
  {
  }

  /* ---------------------------------------------------------------- */
  /* Column discovery                                                  */
  /* ---------------------------------------------------------------- */

  /**
   * Public, no arguments, not void, with a getter name; the field such a
   * getter stands for is named and starts in lower case.
   */
  function IsGetter(m: MethodInfo): (r: bool)
    ensures r ==> var f := GetFieldName(m.name); |f| > 0 && IsLowerCase(f[0])
  {
    && IsGetterName(m.name)
    && |m.parameterTypes| == 0
    && m.returnType != PrimitiveClass(VoidType)
    && m.returnType != VOID
    && m.isPublic
  }

  /** A public method with this name and exactly these parameter types. */
  predicate MatchesSignature(m: MethodInfo, name: string, parameterTypes: seq<JClass>) {
    m.isPublic && m.name == name && m.parameterTypes == parameterTypes
  }

  /** `Class.getMethod(name, parameterTypes)`: the first matching public method, or none. */
  function FindMethod(methods: seq<MethodInfo>, name: string, parameterTypes: seq<JClass>): (r: Option<MethodInfo>)
    ensures r.Some? ==> r.value in methods && MatchesSignature(r.value, name, parameterTypes)
    ensures r.None? ==> forall m :: m in methods ==> !MatchesSignature(m, name, parameterTypes)
  {
    if methods == [] then None
    else if MatchesSignature(methods[0], name, parameterTypes) then Some(methods[0])
    else FindMethod(methods[1..], name, parameterTypes)
  }

  /** The setter a getter's column uses: `set<Field>` taking the getter's return type. */
  function FindSetter(classMethods: seq<MethodInfo>, getter: MethodInfo): (r: Option<MethodInfo>)
    requires IsGetter(getter)
    ensures r.Some? ==>
      && r.value in classMethods && r.value.isPublic
      && IsSetterName(r.value.name)
      && GetFieldName(r.value.name) == GetFieldName(getter.name)
      && r.value.parameterTypes == [getter.returnType]
    ensures r.None? ==> forall m :: m in classMethods ==>
      !(m.isPublic && IsSetterName(m.name) && GetFieldName(m.name) == GetFieldName(getter.name)
        && m.parameterTypes == [getter.returnType])
  {
    var field := GetFieldName(getter.name);
    FieldSetterRoundTrip(field);
    forall m | m in classMethods && IsSetterName(m.name) && GetFieldName(m.name) == field
      ensures m.name == GetSetterName(field)
    {
      SetterNameOfField(m.name);
    }
    FindMethod(classMethods, GetSetterName(field), [getter.returnType])
  }

  /** A getter has a setter exactly when `getMethod` finds `set<Field>` taking its return type. */
  lemma FindSetterExists(classMethods: seq<MethodInfo>, getter: MethodInfo)
    requires IsGetter(getter)
    ensures FindSetter(classMethods, getter).Some? <==>
      exists s :: s in classMethods && MatchesSignature(s, GetSetterName(GetFieldName(getter.name)), [getter.returnType])
  {
    var name := GetSetterName(GetFieldName(getter.name));
    assert FindSetter(classMethods, getter) == FindMethod(classMethods, name, [getter.returnType]);
  }

  /** A setter name is the setter name of its own field. */
  lemma SetterNameOfField(methodName: string)
    requires IsSetterName(methodName)
    ensures GetSetterName(GetFieldName(methodName)) == methodName
  {
    assert !StartsWith(methodName, "is") by { assert methodName[0] == 's'; }
    assert !StartsWith(methodName, "get") by { assert methodName[0] == 's'; }
    var f := GetFieldName(methodName);
    UpperLowerUpper(methodName[3]);
    assert methodName == "set" + [methodName[3]] + methodName[4..];
  }

  /**
   * `c` is the column getter `m` with annotation `td` describes: its
   * heading is the trimmed annotation name, or the field name when that
   * is blank, and never empty; the tip is kept only when not blank; the
   * data type is boxed; the setter is `set<Field>` taking the getter's
   * return type, if the class has one; editing needs both the
   * annotation's consent and a setter.
   */
  predicate ColumnOf(classMethods: seq<MethodInfo>, m: MethodInfo, td: JObjectTableColumn, c: Column)
    requires IsGetter(m)
  {
    && c.getterMethod == m
    && c.dataType == UpgradePrimitiveType(m.returnType)
    && c.order == td.order
    && c.sortable == td.sortable
    && c.name == (if Trim(td.name) != "" then Trim(td.name) else GetFieldName(m.name))
    && |c.name| > 0
    && (c.tip.None? <==> Trim(td.tip) == "")
    && (c.tip.Some? ==> c.tip.value == td.tip)
    && c.setterMethod == FindSetter(classMethods, m)
    && (c.setterMethod.Some? <==>
          exists s :: s in classMethods && MatchesSignature(s, GetSetterName(GetFieldName(m.name)), [m.returnType]))
    && (c.editable <==> td.editable && c.setterMethod.Some?)
  }

  /**
   * The column one method of the row class contributes, if any: a
   * public, argument-less, non-void getter carrying an annotation that
   * is not hidden.
   */
  function ColumnFor(classMethods: seq<MethodInfo>, m: MethodInfo): (r: Option<Column>)
    ensures r.Some? <==> IsGetter(m) && m.annotation.Some? && !m.annotation.value.hidden
    ensures r.Some? ==> ColumnOf(classMethods, m, m.annotation.value, r.value)
  {
    if IsGetter(m) && m.annotation.Some? && !m.annotation.value.hidden then
      var td := m.annotation.value;
      var fieldName := GetFieldName(m.name);
      var setter := FindSetter(classMethods, m);
      FindSetterExists(classMethods, m);
      var tname := Trim(td.name);
      Some(Column(
        name := if |tname| > 0 then tname else fieldName,
        order := td.order,
        tip := if |Trim(td.tip)| > 0 then Some(td.tip) else None,
        sortable := td.sortable,
        editable := td.editable && setter.Some?,
        dataType := UpgradePrimitiveType(m.returnType),
        getterMethod := m,
        setterMethod := setter))
    else
      None
  }

  /** A getter annotated with every default gets a column named after its field. */
  lemma DefaultAnnotationColumn(classMethods: seq<MethodInfo>, m: MethodInfo)
    requires IsGetter(m) && m.annotation == Some(DEFAULT_COLUMN)
    ensures var r := ColumnFor(classMethods, m);
      && r.Some?
      && r.value.name == GetFieldName(m.name)
      && r.value.order == 0
      && r.value.tip.None?
      && r.value.sortable
      && (r.value.editable <==> FindSetter(classMethods, m).Some?)
  {
    assert Trim(DEFAULT_COLUMN.name) == "" && Trim(DEFAULT_COLUMN.tip) == "";
  }

  /** The columns of the methods `ms`, in the order the methods are listed. */
  function DeriveColumns(classMethods: seq<MethodInfo>, ms: seq<MethodInfo>): seq<Column>
  {
    if ms == [] then []
    else
      var last := ColumnFor(classMethods, ms[|ms| - 1]);
      DeriveColumns(classMethods, ms[..|ms| - 1]) + (if last.Some? then [last.value] else [])
  }

  /**
   * Exactly the annotated, visible getters among `ms` become columns,
   * each built by `ColumnFor` from its own getter.
   */
  lemma {:induction false} DeriveColumnsSpec(classMethods: seq<MethodInfo>, ms: seq<MethodInfo>)
    ensures forall c :: c in DeriveColumns(classMethods, ms) ==>
      c.getterMethod in ms && ColumnFor(classMethods, c.getterMethod) == Some(c)
    ensures forall m :: m in ms && ColumnFor(classMethods, m).Some? ==>
      ColumnFor(classMethods, m).value in DeriveColumns(classMethods, ms)
  {
    if ms != [] {
      var init := ms[..|ms| - 1];
      var last := ms[|ms| - 1];
      DeriveColumnsSpec(classMethods, init);
      assert ms == init + [last];
      var prev := DeriveColumns(classMethods, init);
      var col := ColumnFor(classMethods, last);
      assert DeriveColumns(classMethods, ms) == prev + (if col.Some? then [col.value] else []);
      forall c | c in DeriveColumns(classMethods, ms)
        ensures c.getterMethod in ms && ColumnFor(classMethods, c.getterMethod) == Some(c)
      {
        if c !in prev {
          assert c == col.value && c.getterMethod == last;
        }
      }
      forall m | m in ms && ColumnFor(classMethods, m).Some?
        ensures ColumnFor(classMethods, m).value in DeriveColumns(classMethods, ms)
      {
        if m !in init {
          assert m == last;
        }
      }
    }
  }

  /* ---------------------------------------------------------------- */
  /* Column order                                                      */
  /* ---------------------------------------------------------------- */

  /**
   * The comparator of the column sort. `AsWritten` is the source's
   * `c1.order - c2.order` in 32-bit arithmetic; `Corrected` is the sign
   * of the true difference (`Integer.compare`).
   */
  datatype OrderComparator = AsWritten | Corrected

  function CompareOrder(cmp: OrderComparator, order1: int32, order2: int32): (r: int)
    ensures r == 0 <==> order1 == order2
    ensures cmp == Corrected ==> -1 <= r <= 1 && (r < 0 <==> order1 < order2)
    ensures cmp == AsWritten && DifferenceFits(order1, order2) ==> (r < 0 <==> order1 < order2)
  {
    match cmp
    case AsWritten => Wrap32(order1 - order2)
    case Corrected => if order1 < order2 then -1 else if order1 == order2 then 0 else 1
  }

  /** The difference of two orders is itself an `int`. */
  predicate DifferenceFits(order1: int, order2: int) {
    INT_MIN <= order1 - order2 <= INT_MAX
  }

  lemma CompareOrderAgrees(order1: int32, order2: int32)
    requires DifferenceFits(order1, order2)
    ensures CompareOrder(AsWritten, order1, order2) > 0 <==> CompareOrder(Corrected, order1, order2) > 0
  {
  }

  /** Stable insertion: `c` goes after every element that does not compare greater. */
  function InsertColumn(c: Column, sorted: seq<Column>, cmp: OrderComparator): (r: seq<Column>)
    ensures multiset(r) == multiset(sorted) + multiset{c}
  {
    if sorted == [] then [c]
    else
      var last := sorted[|sorted| - 1];
      var init := sorted[..|sorted| - 1];
      assert sorted == init + [last];
      if CompareOrder(cmp, last.order, c.order) > 0 then InsertColumn(c, init, cmp) + [last]
      else sorted + [c]
  }

  /** `List.sort` with the given comparator (a stable sort). */
  function SortColumns(cols: seq<Column>, cmp: OrderComparator): (r: seq<Column>)
    ensures multiset(r) == multiset(cols)
  {
    if cols == [] then []
    else
      var init := cols[..|cols| - 1];
      assert cols == init + [cols[|cols| - 1]];
      InsertColumn(cols[|cols| - 1], SortColumns(init, cmp), cmp)
  }

  /** Columns in non-decreasing `order`. */
  predicate OrderSorted(cols: seq<Column>) {
    forall i, j :: 0 <= i < j < |cols| ==> cols[i].order <= cols[j].order
  }

  /** No column in `cols` has an `order` above `bound`. */
  predicate OrdersAtMost(cols: seq<Column>, bound: int32) {
    forall i :: 0 <= i < |cols| ==> cols[i].order <= bound
  }

  lemma {:induction false} InsertOrdersAtMost(c: Column, sorted: seq<Column>, cmp: OrderComparator, bound: int32)
    requires OrdersAtMost(sorted, bound) && c.order <= bound
    ensures OrdersAtMost(InsertColumn(c, sorted, cmp), bound)
  {
    if sorted != [] {
      var last := sorted[|sorted| - 1];
      var init := sorted[..|sorted| - 1];
      if CompareOrder(cmp, last.order, c.order) > 0 {
        InsertOrdersAtMost(c, init, cmp, bound);
      }
    }
  }

  lemma {:induction false} InsertKeepsSorted(c: Column, sorted: seq<Column>)
    requires OrderSorted(sorted)
    ensures OrderSorted(InsertColumn(c, sorted, Corrected))
  {
    if sorted != [] {
      var last := sorted[|sorted| - 1];
      var init := sorted[..|sorted| - 1];
      if last.order > c.order {
        InsertKeepsSorted(c, init);
        InsertOrdersAtMost(c, init, Corrected, last.order);
        var r := InsertColumn(c, init, Corrected);
        assert InsertColumn(c, sorted, Corrected) == r + [last];
      }
    }
  }

  /** With the corrected comparator the sorted columns are in non-decreasing order. */
  lemma {:induction false} SortColumnsSorted(cols: seq<Column>)
    ensures OrderSorted(SortColumns(cols, Corrected))
  {
    if cols != [] {
      SortColumnsSorted(cols[..|cols| - 1]);
      InsertKeepsSorted(cols[|cols| - 1], SortColumns(cols[..|cols| - 1], Corrected));
    }
  }

  lemma {:induction false} InsertAgrees(c: Column, sorted: seq<Column>)
    requires forall x :: x in sorted ==> DifferenceFits(x.order, c.order)
    ensures InsertColumn(c, sorted, AsWritten) == InsertColumn(c, sorted, Corrected)
  {
    if sorted != [] {
      var last := sorted[|sorted| - 1];
      CompareOrderAgrees(last.order, c.order);
      InsertAgrees(c, sorted[..|sorted| - 1]);
    }
  }

  /** No two orders of the list are further apart than an `int` can hold. */
  predicate NoOrderOverflow(cols: seq<Column>) {
    forall i, j :: 0 <= i < |cols| && 0 <= j < |cols| ==> DifferenceFits(cols[i].order, cols[j].order)
  }

  /** While no order difference overflows, the source's comparator sorts exactly like the corrected one. */
  lemma {:induction false} SortAgreesWithoutOverflow(cols: seq<Column>)
    requires NoOrderOverflow(cols)
    ensures SortColumns(cols, AsWritten) == SortColumns(cols, Corrected)
  {
    if cols != [] {
      var init := cols[..|cols| - 1];
      var c := cols[|cols| - 1];
      SortAgreesWithoutOverflow(init);
      var t := SortColumns(init, Corrected);
      forall x | x in t ensures DifferenceFits(x.order, c.order) {
        assert x in multiset(t);
        assert x in multiset(init);
        var i :| 0 <= i < |init| && init[i] == x;
        assert cols[i] == x;
      }
      InsertAgrees(c, t);
    }
  }

  /**
   * With orders `Integer.MIN_VALUE` and 1 the source's comparator claims
   * the first is greater (`MIN_VALUE - 1` wraps to `MAX_VALUE`), so the
   * sorted list is not in `order`.
   */
  lemma OrderOverflowCounterexample(c: Column)
    ensures var low := c.(order := INT_MIN);
      var one := c.(order := 1);
      SortColumns([low, one], AsWritten) == [one, low]
      && !OrderSorted(SortColumns([low, one], AsWritten))
  {
    var low := c.(order := INT_MIN);
    var one := c.(order := 1);
    assert [low, one][..1] == [low];
    assert SortColumns([low], AsWritten) == [low] by {
      assert [low][..0] == [];
    }
    assert CompareOrder(AsWritten, low.order, one.order) == INT_MAX;
  }

  /* ---------------------------------------------------------------- */
  /* Rows                                                              */
  /* ---------------------------------------------------------------- */

  /** `List.indexOf`: the first position holding `x`, or -1. */
  function IndexOf<T(==)>(s: seq<T>, x: T): (r: int)
    ensures r == -1 <==> x !in s
    ensures r != -1 ==> 0 <= r < |s| && s[r] == x && x !in s[..r]
  {
    if s == [] then -1
    else if s[0] == x then 0
    else
      var k := IndexOf(s[1..], x);
      if k == -1 then -1
      else
        assert s[..k + 1] == [s[0]] + s[1..][..k];
        k + 1
  }

  /** `List.remove(int)` on a valid index. */
  function RemoveAt<T>(s: seq<T>, index: int): (r: seq<T>)
    requires 0 <= index < |s|
    ensures |r| == |s| - 1
    ensures forall i :: 0 <= i < index ==> r[i] == s[i]
    ensures forall i :: index <= i < |r| ==> r[i] == s[i + 1]
  {
    s[..index] + s[index + 1..]
  }

  /** Removing one position takes exactly that row out of the list's multiset. */
  lemma RemoveAtPermutes<T>(s: seq<T>, index: int)
    requires 0 <= index < |s|
    ensures multiset(RemoveAt(s, index)) == multiset(s) - multiset{s[index]}
  {
    assert s == s[..index] + [s[index]] + s[index + 1..];
  }

  /**
   * Removes `indices` one after the other, each from the list the
   * previous removals left; stops at the first index out of range.
   * Returns the list and whether every removal happened.
   */
  function RemoveSequentially<T>(s: seq<T>, indices: seq<int>): (r: (seq<T>, bool))
    ensures multiset(r.0) <= multiset(s)
    ensures |r.0| <= |s|
  {
    if indices == [] then (s, true)
    else if 0 <= indices[0] < |s| then
      RemoveAtPermutes(s, indices[0]);
      RemoveSequentially(RemoveAt(s, indices[0]), indices[1..])
    else (s, false)
  }

  /**
   * All removals succeed exactly when the k-th index is in range of a
   * list already shortened by k; then the list loses one row per index.
   */
  lemma {:induction false} RemoveSequentiallySpec<T>(s: seq<T>, indices: seq<int>)
    ensures RemoveSequentially(s, indices).1 <==>
      forall k :: 0 <= k < |indices| ==> 0 <= indices[k] < |s| - k
    ensures RemoveSequentially(s, indices).1 ==> |RemoveSequentially(s, indices).0| == |s| - |indices|
  {
    if indices != [] && 0 <= indices[0] < |s| {
      RemoveSequentiallySpec(RemoveAt(s, indices[0]), indices[1..]);
      if forall k :: 0 <= k < |indices| ==> 0 <= indices[k] < |s| - k {
        forall k | 0 <= k < |indices| - 1 ensures 0 <= indices[1..][k] < |s| - 1 - k {
          assert indices[1..][k] == indices[k + 1];
        }
      }
      if forall k :: 0 <= k < |indices| - 1 ==> 0 <= indices[1..][k] < |s| - 1 - k {
        forall k | 1 <= k < |indices| ensures 0 <= indices[k] < |s| - k {
          assert indices[k] == indices[1..][k - 1];
        }
      }
    }
  }

  /** Removing index 0 twice removes the first two rows, not the first row twice. */
  lemma RemoveSequentiallyShifts<T>(a: T, b: T, c: T)
    ensures RemoveSequentially([a, b, c], [0, 0]) == ([c], true)
  {
    var s0: seq<T> := [a, b, c];
    var s1: seq<T> := [b, c];
    var s2: seq<T> := [c];
    var i0: seq<int> := [0, 0];
    var i1: seq<int> := [0];
    assert RemoveAt(s0, 0) == s1 by { assert s0[..0] + s0[1..] == s1; }
    assert RemoveAt(s1, 0) == s2 by { assert s1[..0] + s1[1..] == s2; }
    assert i0[1..] == i1 && i1[1..] == [];
    RemoveFirstStep(s0, i0);
    RemoveFirstStep(s1, i1);
  }

  /** One removal, then the rest from the shortened list. */
  lemma RemoveFirstStep<T>(s: seq<T>, indices: seq<int>)
    requires indices != [] && 0 <= indices[0] < |s|
    ensures RemoveSequentially(s, indices) == RemoveSequentially(RemoveAt(s, indices[0]), indices[1..])
  {
  }

  /** One more method adds its column, if it has one, at the end. */
  lemma DeriveColumnsSnoc(classMethods: seq<MethodInfo>, ms: seq<MethodInfo>, i: nat)
    requires i < |ms|
    ensures var col := ColumnFor(classMethods, ms[i]);
      DeriveColumns(classMethods, ms[..i + 1]) ==
        DeriveColumns(classMethods, ms[..i]) + (if col.Some? then [col.value] else [])
  {
    assert ms[..i + 1][..i] == ms[..i];
  }

  /**
   * Discovers the columns of the row class: one pass over its public
   * methods, appending a column for each annotated visible getter.
   */
  method DiscoverColumns(classMethods: seq<MethodInfo>) returns (columnList: seq<Column>)
    ensures columnList == DeriveColumns(classMethods, classMethods)
  {
    columnList := [];
    var i := 0;
    while i < |classMethods|
      invariant 0 <= i <= |classMethods|
      invariant columnList == DeriveColumns(classMethods, classMethods[..i])
    {
      var col := ColumnFor(classMethods, classMethods[i]);
      DeriveColumnsSnoc(classMethods, classMethods, i);
      if col.Some? {
        columnList := columnList + [col.value];
      }
      i := i + 1;
    }
    assert classMethods[..i] == classMethods;
  }

  /** The model: a fixed column list and a mutable list of rows (null rows allowed). */
  class JObjectTableModel<T(==)> {
    /** The public methods of the row class, as reflection lists them. */
    ghost const classMethods: seq<MethodInfo>
    const columnList: seq<Column>
    var data: seq<Option<T>>
    /** The notifications fired so far, oldest first. */
    var events: seq<TableEvent>

    /** What construction guarantees of the columns; it never changes afterwards. */
    ghost predicate ColumnsWellFormed() {
      WellFormedColumns(classMethods, columnList)
    }

    /** A model over a new, empty row list. */
    constructor (classMethods: seq<MethodInfo>)
      ensures this.classMethods == classMethods
      ensures columnList == SortColumns(DeriveColumns(classMethods, classMethods), Corrected)
      ensures NoOrderOverflow(DeriveColumns(classMethods, classMethods)) ==>
        columnList == SortColumns(DeriveColumns(classMethods, classMethods), AsWritten)
      ensures ColumnsWellFormed()
      ensures data == [] && events == []
    {
      var cols := DiscoverColumns(classMethods);
      SortedColumnsWellFormed(classMethods);
      this.classMethods := classMethods;
      columnList := SortColumns(cols, Corrected);
      data := [];
      events := [];
    }

    /** A model over an existing row list. */
    constructor WithBackingList(classMethods: seq<MethodInfo>, backingList: seq<Option<T>>)
      ensures this.classMethods == classMethods
      ensures columnList == SortColumns(DeriveColumns(classMethods, classMethods), Corrected)
      ensures NoOrderOverflow(DeriveColumns(classMethods, classMethods)) ==>
        columnList == SortColumns(DeriveColumns(classMethods, classMethods), AsWritten)
      ensures ColumnsWellFormed()
      ensures data == backingList && events == []
    {
      var cols := DiscoverColumns(classMethods);
      SortedColumnsWellFormed(classMethods);
      this.classMethods := classMethods;
      columnList := SortColumns(cols, Corrected);
      data := backingList;
      events := [];
    }

    method Clear()
      modifies this
      ensures data == [] && events == old(events) + [TableDataChanged]
    {
      data := [];
      events := events + [TableDataChanged];
    }

    /** Appends the rows in argument order; fires nothing for no rows. */
    method AddRows(rows: seq<Option<T>>)
      modifies this
      ensures data == old(data) + rows
      ensures events == if |rows| == 0 then old(events)
        else old(events) + [TableRowsInserted(|old(data)|, |data| - 1)]
    {
      if |rows| == 0 {
        return;
      }
      var start := |data|;
      var i := 0;
      while i < |rows|
        invariant 0 <= i <= |rows|
        invariant data == old(data) + rows[..i]
        invariant events == old(events)
      {
        data := data + [rows[i]];
        assert rows[..i + 1] == rows[..i] + [rows[i]];
        i := i + 1;
      }
      assert rows[..i] == rows;
      events := events + [TableRowsInserted(start, |data| - 1)];
    }

    /** Inserts the rows at consecutive positions from `start`, keeping their order. */
    method AddRowsAt(start: int, rows: seq<Option<T>>) returns (r: Result<()>)
      modifies this
      ensures |rows| == 0 ==> r == Ok(()) && data == old(data) && events == old(events)
      ensures |rows| > 0 && !(0 <= start <= |old(data)|) ==>
        r == Throws(IndexOutOfBounds) && data == old(data) && events == old(events)
      ensures |rows| > 0 && 0 <= start <= |old(data)| ==>
        && r == Ok(())
        && data == old(data)[..start] + rows + old(data)[start..]
        && events == old(events) + [TableDataChanged]
    {
      if |rows| == 0 {
        return Ok(());
      }
      if !(0 <= start <= |data|) {
        return Throws(IndexOutOfBounds);
      }
      var i := start;
      var k := 0;
      while k < |rows|
        invariant 0 <= k <= |rows| && i == start + k
        invariant data == old(data)[..start] + rows[..k] + old(data)[start..]
        invariant events == old(events)
      {
        data := data[..i] + [rows[k]] + data[i..];
        assert rows[..k + 1] == rows[..k] + [rows[k]];
        i := i + 1;
        k := k + 1;
      }
      assert rows[..k] == rows;
      events := events + [TableDataChanged];
      r := Ok(());
    }

    function GetRow(index: int): (r: Result<Option<T>>)
      reads this
      ensures r.Ok? <==> 0 <= index < |data|
      ensures r.Ok? ==> r.value == data[index]
      ensures r.Throws? ==> r.error == IndexOutOfBounds
    {
      if 0 <= index < |data| then Ok(data[index]) else Throws(IndexOutOfBounds)
    }

    /** Removes the row at `index`; fires a deletion only when the removed row is not null. */
    method RemoveRowAt(index: int) returns (r: Result<Option<T>>)
      modifies this
      ensures !(0 <= index < |old(data)|) ==>
        r == Throws(IndexOutOfBounds) && data == old(data) && events == old(events)
      ensures 0 <= index < |old(data)| ==>
        && r == Ok(old(data)[index])
        && data == RemoveAt(old(data), index)
        && events == old(events) + (if old(data)[index].Some? then [TableRowsDeleted(index, index)] else [])
    {
      if !(0 <= index < |data|) {
        return Throws(IndexOutOfBounds);
      }
      var out := data[index];
      data := RemoveAt(data, index);
      if out.Some? {
        events := events + [TableRowsDeleted(index, index)];
      }
      r := Ok(out);
    }

    /**
     * Removes the first row equal to `row`. Reports true only when one
     * was found and it is not null (a null row is removed, but false is
     * returned).
     */
    method RemoveRow(row: Option<T>) returns (removed: bool)
      modifies this
      ensures row in old(data) ==>
        && data == RemoveAt(old(data), IndexOf(old(data), row))
        && removed == row.Some?
        && events == old(events) + (if row.Some? then [TableRowsDeleted(IndexOf(old(data), row), IndexOf(old(data), row))] else [])
      ensures row !in old(data) ==> !removed && data == old(data) && events == old(events)
    {
      var index := IndexOf(data, row);
      if index >= 0 {
        var out := RemoveRowAt(index);
        return out.Ok? && out.value.Some?;
      }
      return false;
    }

    /**
     * Removes the rows at `indices` one at a time, each index counted in
     * the list the earlier removals left. An index out of range stops
     * the removals there and propagates; only a complete run fires.
     */
    method RemoveMultipleRows(indices: seq<int>) returns (r: Result<()>)
      modifies this
      ensures data == RemoveSequentially(old(data), indices).0
      ensures RemoveSequentially(old(data), indices).1 ==> r == Ok(()) && events == old(events) + [TableDataChanged]
      ensures !RemoveSequentially(old(data), indices).1 ==> r == Throws(IndexOutOfBounds) && events == old(events)
    {
      var k := 0;
      while k < |indices|
        invariant 0 <= k <= |indices|
        invariant RemoveSequentially(data, indices[k..]) == RemoveSequentially(old(data), indices)
        invariant events == old(events)
      {
        var i := indices[k];
        assert indices[k..][1..] == indices[k + 1..];
        if !(0 <= i < |data|) {
          return Throws(IndexOutOfBounds);
        }
        data := RemoveAt(data, i);
        k := k + 1;
      }
      events := events + [TableDataChanged];
      r := Ok(());
    }

    function GetRowCount(): (n: nat)
      reads this
      ensures n == |data|
    {
      |data|
    }

    function GetColumnCount(): (n: nat)
      ensures n == |columnList|
    {
      |columnList|
    }

    function GetColumnClass(columnIndex: int): (r: Result<JClass>)
      ensures r.Ok? <==> 0 <= columnIndex < |columnList|
      ensures r.Ok? ==> r.value == columnList[columnIndex].dataType
      ensures r.Throws? ==> r.error == IndexOutOfBounds
    {
      if 0 <= columnIndex < |columnList| then
        Ok(columnList[columnIndex].dataType)
      else
        Throws(IndexOutOfBounds)
    }

    /** The heading of a column: the annotation's trimmed name, or else the field name; never empty. */
    function GetColumnName(columnIndex: int): (r: Result<string>)
      requires ColumnsWellFormed()
      ensures r.Ok? <==> 0 <= columnIndex < |columnList|
      ensures r.Ok? ==> r.value == columnList[columnIndex].name && |r.value| > 0
      ensures r.Throws? ==> r.error == IndexOutOfBounds
    {
      if 0 <= columnIndex < |columnList| then
        assert columnList[columnIndex] in columnList;
        Ok(columnList[columnIndex].name)
      else
        Throws(IndexOutOfBounds)
    }

    /** A cell is editable when its column is; that needs an annotation allowing it and a setter. */
    function IsCellEditable(rowIndex: int, columnIndex: int): (r: Result<bool>)
      requires ColumnsWellFormed()
      ensures r.Ok? <==> 0 <= columnIndex < |columnList|
      ensures r.Ok? ==> r.value == columnList[columnIndex].editable
      ensures r == Ok(true) ==>
        var c := columnList[columnIndex];
        c.setterMethod.Some? && c.getterMethod.annotation.Some? && c.getterMethod.annotation.value.editable
    {
      if 0 <= columnIndex < |columnList| then
        assert columnList[columnIndex] in columnList;
        Ok(columnList[columnIndex].editable)
      else
        Throws(IndexOutOfBounds)
    }
  }

  /**
   * The columns are in `order`, and they are exactly the columns of the
   * qualifying getters of the row class.
   */
  ghost predicate WellFormedColumns(classMethods: seq<MethodInfo>, cols: seq<Column>) {
    && OrderSorted(cols)
    && (forall c :: c in cols ==>
          c.getterMethod in classMethods && ColumnFor(classMethods, c.getterMethod) == Some(c))
    && (forall m :: m in classMethods && ColumnFor(classMethods, m).Some? ==>
          ColumnFor(classMethods, m).value in cols)
  }

  /**
   * The sorted column list is well formed in the sense of
   * `ColumnsWellFormed`, and unless two orders are further apart than an
   * `int` holds it is the very list the source's comparator produces.
   */
  lemma SortedColumnsWellFormed(classMethods: seq<MethodInfo>)
    ensures var derived := DeriveColumns(classMethods, classMethods);
      NoOrderOverflow(derived) ==> SortColumns(derived, AsWritten) == SortColumns(derived, Corrected)
    ensures WellFormedColumns(classMethods, SortColumns(DeriveColumns(classMethods, classMethods), Corrected))
  {
    var derived := DeriveColumns(classMethods, classMethods);
    var cols := SortColumns(derived, Corrected);
    if NoOrderOverflow(derived) {
      SortAgreesWithoutOverflow(derived);
    }
    SortColumnsSorted(derived);
    DeriveColumnsSpec(classMethods, classMethods);
    forall c | c in cols ensures c in derived {
      assert c in multiset(cols);
    }
    forall c | c in derived ensures c in cols {
      assert c in multiset(derived);
    }
  }
}
