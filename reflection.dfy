/** Reflective field walking of `ReflectionUtil`, over an explicit model of the class
    hierarchy instead of the JVM's reflection API.

    A class is the datatype `Class`: its declared fields and methods in declaration order,
    its optional superclass, and whether `GenericEntity` or `GenericDto` is assignable from
    it (`domain`). Because the superclass is held inside the value, every superclass chain
    is finite, as the JVM guarantees. `field.getDeclaringClass()` of a field returned by
    `c.getDeclaredFields()` is `c` itself, and the model uses `c` wherever the code asks for it.

    An object is the value `Instance(cls, state)`: its runtime class and the value of each of
    its fields by name. Each getter or setter names the field it reads or writes, which by the
    bean convention is the field `x` for `getX` and `setX`. */
module Reflection {
  import opened Common

  /** The qualified name of an annotation type, e.g. `jakarta.validation.constraints.NotNull`. */
  type Annotation = string

  type Int32 = x: int | -0x8000_0000 <= x < 0x8000_0000
  type Int64 = x: int | -0x8000_0000_0000_0000 <= x < 0x8000_0000_0000_0000
  /** Nanoseconds since midnight, as `LocalTime` counts them. */
  type NanoOfDay = n: nat | n < 86_400_000_000_000

  /** A declared field. `widensDomain` says that the field's declared type is `GenericDto`,
      `GenericEntity` or one of their supertypes (`field.getType().isAssignableFrom(...)`). */
  datatype Field = Field(name: string, annotations: set<Annotation>, isStatic: bool, widensDomain: bool)

  /** A declared method: its name, its parameter types by class name, whether invoking it
      faults (`IllegalAccessException`, `IllegalArgumentException`, `InvocationTargetException`),
      and, for an accessor, the field it reads or writes (`property`). */
  datatype Method = Method(name: string, params: seq<string>, faults: bool, property: string)

  /** `interfaces` holds the names of the interfaces the class implements, together with the
      interfaces those extend. */
  datatype Class = Class(
    name: string,
    interfaces: set<string>,
    fields: seq<Field>,
    methods: seq<Method>,
    superclass: Option<Class>,
    domain: bool)

  /** The runtime values the utility handles. Floating-point numbers are kept as their IEEE bits;
      a `BigDecimal` is its unscaled value and scale; dates count days from the epoch. */
  datatype Value =
    | Null
    | Bool(b: bool)
    | Str(s: string)
    | Int(i: Int32)
    | Long(l: Int64)
    | Float(fbits: bv32)
    | Double(dbits: bv64)
    | Decimal(unscaled: int, scale: Int32)
    | Date(epochDay: int)
    | DateTime(day: int, nanos: NanoOfDay)
    | Obj(inst: Instance)

  datatype Instance = Instance(cls: Class, state: map<string, Value>)

  /** The exceptions the utility raises, tagged by the message constant they carry. */
  datatype Access = Get | Set
  datatype Error =
      /** `FieldValueException(ERROR_FIELD_GET_VALUE or ERROR_FIELD_SET_VALUE, fieldName, instance)` */
    | FieldValueError(access: Access, fieldName: string)
      /** `NotFoundException(ERROR_MISSING_ANNOTATION, annotation, clazz)` */
    | AnnotationNotFound(annotation: Annotation, className: string)
      /** `UnExpectedException("Failed to cast value: {} to type: {}", value, typeName)` */
    | CastFailure(value: Value, typeName: string)
      /** `UnExpectedException("Unsupported cast type: {}", typeName)` */
    | UnsupportedCast(typeName: string)
      /** `substring(0, 1)` of an empty field name */
    | StringIndexOutOfBounds
      /** `value.getClass()` on a null value */
    | NullPointer

  // ---------------------------------------------------------------------------------------
  // The class hierarchy

  /** The class followed by its superclasses, nearest first. */
  function Chain(c: Class): (r: seq<Class>)
    ensures |r| >= 1 && r[0] == c
    decreases c
  {
    [c] + (match c.superclass case None => [] case Some(s) => Chain(s))
  }

  /** The number of superclasses above `c`. */
  function Depth(c: Class): nat
    decreases c
  {
    match c.superclass case None => 0 case Some(s) => 1 + Depth(s)
  }

  /** The names of `c`, of all its superclasses and of every interface they implement. */
  function ClassNames(c: Class): (r: set<string>)
    ensures c.name in r && c.interfaces <= r
    ensures c.superclass.Some? ==> ClassNames(c.superclass.value) <= r
    decreases c
  {
    {c.name} + c.interfaces + (match c.superclass case None => {} case Some(s) => ClassNames(s))
  }

  /** The JDK classes and interfaces above `Number`, shared by the boxed numeric types. */
  const BOXED_NUMBER_TYPES: set<string> :=
    {"java.lang.Number", "java.io.Serializable", "java.lang.Comparable",
     "java.lang.constant.Constable", "java.lang.constant.ConstantDesc"}

  /** The names of the JDK classes and interfaces a value of a built-in kind is an instance of,
      besides `java.lang.Object`. */
  function BuiltinTypeNames(v: Value): (r: set<string>)
    requires v != Null && !v.Obj?
    ensures RuntimeClassName(v) in r
  {
    match v
    case Bool(_) =>
      {"java.lang.Boolean", "java.io.Serializable", "java.lang.Comparable", "java.lang.constant.Constable"}
    case Str(_) =>
      {"java.lang.String", "java.lang.CharSequence", "java.io.Serializable", "java.lang.Comparable",
       "java.lang.constant.Constable", "java.lang.constant.ConstantDesc"}
    case Int(_) => {"java.lang.Integer"} + BOXED_NUMBER_TYPES
    case Long(_) => {"java.lang.Long"} + BOXED_NUMBER_TYPES
    case Float(_) => {"java.lang.Float"} + BOXED_NUMBER_TYPES
    case Double(_) => {"java.lang.Double"} + BOXED_NUMBER_TYPES
    case Decimal(_, _) => {"java.math.BigDecimal", "java.lang.Number", "java.io.Serializable", "java.lang.Comparable"}
    case Date(_) =>
      {"java.time.LocalDate", "java.time.chrono.ChronoLocalDate", "java.time.temporal.Temporal",
       "java.time.temporal.TemporalAccessor", "java.time.temporal.TemporalAdjuster",
       "java.io.Serializable", "java.lang.Comparable"}
    case DateTime(_, _) =>
      {"java.time.LocalDateTime", "java.time.chrono.ChronoLocalDateTime", "java.time.temporal.Temporal",
       "java.time.temporal.TemporalAccessor", "java.time.temporal.TemporalAdjuster",
       "java.io.Serializable", "java.lang.Comparable"}
  }

  /** `getClass().getName()` of a non-null value. */
  function RuntimeClassName(v: Value): string
    requires v != Null
  {
    match v
    case Bool(_) => "java.lang.Boolean"
    case Str(_) => "java.lang.String"
    case Int(_) => "java.lang.Integer"
    case Long(_) => "java.lang.Long"
    case Float(_) => "java.lang.Float"
    case Double(_) => "java.lang.Double"
    case Decimal(_, _) => "java.math.BigDecimal"
    case Date(_) => "java.time.LocalDate"
    case DateTime(_, _) => "java.time.LocalDateTime"
    case Obj(i) => i.cls.name
  }

  // ---------------------------------------------------------------------------------------
  // Accessor lookup

  /** `toUpperCase` of a one-character string, for the ASCII letters. */
  function UpperCase(ch: char): char {
    if 'a' <= ch <= 'z' then (ch as int - 32) as char else ch
  }

  /** The accessor name built by `getFieldValue` and `setFieldValue`: the verb, then the first
      character of the field name upper-cased, then the rest of the field name. */
  function AccessorName(verb: string, fieldName: string): (r: string)
    requires |fieldName| > 0
    ensures |r| == |verb| + |fieldName|
    ensures r[..|verb|] == verb
    ensures r[|verb|] == UpperCase(fieldName[0])
    ensures r[|verb| + 1..] == fieldName[1..]
  {
    verb + [UpperCase(fieldName[0])] + fieldName[1..]
  }

  /** Two field names give the same accessor exactly when they agree after their first
      character and their first characters agree once upper-cased (so `foo` and `Foo` share
      the getter `getFoo`). */
  lemma AccessorNameCollision(verb: string, a: string, b: string)
    requires |a| > 0 && |b| > 0
    ensures AccessorName(verb, a) == AccessorName(verb, b)
        <==> UpperCase(a[0]) == UpperCase(b[0]) && a[1..] == b[1..]
  {
    var ra, rb := AccessorName(verb, a), AccessorName(verb, b);
    if ra == rb {
      assert ra[|verb|] == rb[|verb|];
      assert ra[|verb| + 1..] == rb[|verb| + 1..];
    }
  }

  /** A getter name never equals a setter name. */
  lemma GetterIsNotSetter(a: string, b: string)
    requires |a| > 0 && |b| > 0
    ensures AccessorName("get", a) != AccessorName("set", b)
  {
    assert AccessorName("get", a)[0] == 'g';
    assert AccessorName("set", b)[0] == 's';
  }

  /** Whether `c` itself declares a method with that name and exactly those parameter types. */
  ghost predicate Declares(c: Class, name: string, params: seq<string>) {
    exists m :: m in c.methods && m.name == name && m.params == params
  }

  /** Whether `c` or one of its superclasses declares such a method. */
  ghost predicate Responds(c: Class, name: string, params: seq<string>)
    decreases c
  {
    Declares(c, name, params) || (c.superclass.Some? && Responds(c.superclass.value, name, params))
  }

  /** The first method of `ms` with that name and parameter types. */
  function FindDeclared(ms: seq<Method>, name: string, params: seq<string>): (r: Option<Method>)
    ensures r.Some? ==> r.value in ms && r.value.name == name && r.value.params == params
    ensures r.None? ==> forall m :: m in ms ==> !(m.name == name && m.params == params)
  {
    if ms == [] then None
    else if ms[0].name == name && ms[0].params == params then Some(ms[0])
    else FindDeclared(ms[1..], name, params)
  }

  /** Spring's `ReflectionUtils.findMethod(clazz, name, paramTypes)`: the first method with
      that name and exactly those parameter types, searching the class before its superclasses. */
  function FindMethod(c: Class, name: string, params: seq<string>): (r: Option<Method>)
    ensures r.None? <==> !Responds(c, name, params)
    ensures r.Some? ==> r.value.name == name && r.value.params == params
    ensures FindDeclared(c.methods, name, params).Some? ==> r == FindDeclared(c.methods, name, params)
    decreases c
  {
    match FindDeclared(c.methods, name, params)
    case Some(m) => Some(m)
    case None =>
      match c.superclass
      case None => None
      case Some(s) => FindMethod(s, name, params)
  }

  // ---------------------------------------------------------------------------------------
  // getFieldValue / setFieldValue

  /** The value of field `name`; a field never written reads as null. */
  function FieldOf(inst: Instance, name: string): Value {
    if name in inst.state then inst.state[name] else Null
  }

  /** The getter `getFieldValue` looks up for `fieldName`. */
  function Getter(c: Class, fieldName: string): Option<Method>
    requires fieldName != []
  {
    FindMethod(c, AccessorName("get", fieldName), [])
  }

  /** The setter `setFieldValue` looks up for `fieldName`, with `value.getClass()` as its one
      parameter type. */
  function Setter(c: Class, fieldName: string, value: Value): Option<Method>
    requires fieldName != [] && value != Null
  {
    FindMethod(c, AccessorName("set", fieldName), [RuntimeClassName(value)])
  }

  /** `getFieldValue(instance, fieldName)`: a missing getter gives null without error; a getter
      whose invocation faults raises `FieldValueException`; otherwise the value of the field the
      getter reads. */
  function GetFieldValue(inst: Instance, fieldName: string): (r: Result<Value, Error>)
    ensures fieldName == [] <==> r == Err(StringIndexOutOfBounds)
    ensures r.Err? ==> r.error in {StringIndexOutOfBounds, FieldValueError(Get, fieldName)}
    ensures fieldName != [] && Getter(inst.cls, fieldName).None? ==> r == Ok(Null)
    ensures fieldName != [] && Getter(inst.cls, fieldName).Some? ==>
              (r.Err? <==> Getter(inst.cls, fieldName).value.faults) &&
              (r.Ok? ==> r.value == FieldOf(inst, Getter(inst.cls, fieldName).value.property))
    ensures r.Ok? && r.value != Null ==>
              exists p :: p in inst.state && r.value == inst.state[p]
  {
    if fieldName == [] then Err(StringIndexOutOfBounds)
    else
      match Getter(inst.cls, fieldName)
      case None => Ok(Null)
      case Some(m) => if m.faults then Err(FieldValueError(Get, fieldName)) else Ok(FieldOf(inst, m.property))
  }

  /** Field names that share their getter give the same value: `foo` and `Foo` both call
      `getFoo`, and only the exception message tells them apart. */
  lemma GetterSharedByNames(inst: Instance, a: string, b: string)
    requires |a| > 0 && |b| > 0 && UpperCase(a[0]) == UpperCase(b[0]) && a[1..] == b[1..]
    ensures GetFieldValue(inst, a).Ok? <==> GetFieldValue(inst, b).Ok?
    ensures GetFieldValue(inst, a).Ok? ==> GetFieldValue(inst, a) == GetFieldValue(inst, b)
  {
    AccessorNameCollision("get", a, b);
    assert Getter(inst.cls, a) == Getter(inst.cls, b);
  }

  /** The object `setFieldValue(instance, fieldName, value)` leaves behind, or the exception it
      raises: a working setter writes the field it stands for, and nothing else changes. */
  function Assigned(inst: Instance, fieldName: string, value: Value): (r: Result<Instance, Error>)
    ensures fieldName == [] ==> r == Err(StringIndexOutOfBounds)
    ensures fieldName != [] && value == Null ==> r == Err(NullPointer)
    ensures fieldName != [] && value != Null && Setter(inst.cls, fieldName, value).None? ==> r == Ok(inst)
    ensures fieldName != [] && value != Null && Setter(inst.cls, fieldName, value).Some? ==>
              (r.Err? <==> Setter(inst.cls, fieldName, value).value.faults)
    ensures r.Err? ==> r.error in {StringIndexOutOfBounds, NullPointer, FieldValueError(Set, fieldName)}
    ensures r.Ok? ==> r.value.cls == inst.cls
    ensures fieldName != [] && value != Null && r.Ok? && Setter(inst.cls, fieldName, value).Some? ==>
              var p := Setter(inst.cls, fieldName, value).value.property;
              FieldOf(r.value, p) == value && forall g :: g != p ==> FieldOf(r.value, g) == FieldOf(inst, g)
  {
    if fieldName == [] then Err(StringIndexOutOfBounds)
    else if value == Null then Err(NullPointer)
    else
      match Setter(inst.cls, fieldName, value)
      case None => Ok(inst)
      case Some(m) =>
        if m.faults then Err(FieldValueError(Set, fieldName))
        else Ok(inst.(state := inst.state[m.property := value]))
  }

  /** Reading a field back after setting it, through a working setter and a working getter of
      the same field, gives the value set. */
  lemma GetAfterSet(inst: Instance, fieldName: string, value: Value)
    requires fieldName != [] && value != Null
    requires Setter(inst.cls, fieldName, value).Some? && !Setter(inst.cls, fieldName, value).value.faults
    requires Getter(inst.cls, fieldName).Some? && !Getter(inst.cls, fieldName).value.faults
    requires Getter(inst.cls, fieldName).value.property == Setter(inst.cls, fieldName, value).value.property
    ensures Assigned(inst, fieldName, value).Ok?
    ensures GetFieldValue(Assigned(inst, fieldName, value).value, fieldName) == Ok(value)
  {
  }

  /** An object whose fields are updated in place. */
  class Bean {
    const cls: Class
    var state: map<string, Value>

    constructor (cls: Class, state: map<string, Value>)
      ensures this.cls == cls && this.state == state
    {
      this.cls := cls;
      this.state := state;
    }

    function Snapshot(): Instance
      reads this
    {
      Instance(cls, state)
    }
  }

  /** `setFieldValue(instance, fieldName, value)`. */
  method SetFieldValue(bean: Bean, fieldName: string, value: Value) returns (r: Outcome<Error>)
    modifies bean
    ensures Assigned(old(bean.Snapshot()), fieldName, value).Ok? ==>
              r == Pass && bean.state == Assigned(old(bean.Snapshot()), fieldName, value).value.state
    ensures Assigned(old(bean.Snapshot()), fieldName, value).Err? ==>
              r == Fail(Assigned(old(bean.Snapshot()), fieldName, value).error) && bean.state == old(bean.state)
  {
    if fieldName == [] {
      return Fail(StringIndexOutOfBounds);
    }
    var setterName := AccessorName("set", fieldName);
    if value == Null {
      return Fail(NullPointer);
    }
    var setter := FindMethod(bean.cls, setterName, [RuntimeClassName(value)]);
    if setter.Some? {
      if setter.value.faults {
        return Fail(FieldValueError(Set, fieldName));
      }
      bean.state := bean.state[setter.value.property := value];
    }
    r := Pass;
  }

  // ---------------------------------------------------------------------------------------
  // getAllFields / getAllAnnotatedFields

  /** The declared fields of `c`, then those of each superclass in turn. */
  function AllFields(c: Class): seq<Field>
    decreases c
  {
    c.fields + (match c.superclass case None => [] case Some(s) => AllFields(s))
  }

  /** The fields still to be collected when the walk has reached `cur`. */
  function FieldsFrom(cur: Option<Class>): seq<Field> {
    match cur case None => [] case Some(k) => AllFields(k)
  }

  /** The total number of fields the classes of `cs` declare. */
  function FieldCount(cs: seq<Class>): nat {
    if cs == [] then 0 else |cs[0].fields| + FieldCount(cs[1..])
  }

  /** `getAllFields` keeps every field, duplicates included: its length is the sum of the
      per-class counts over the superclass chain. */
  lemma {:induction false} AllFieldsLength(c: Class)
    ensures |AllFields(c)| == FieldCount(Chain(c))
    decreases c
  {
    match c.superclass {
      case None =>
        assert Chain(c) == [c];
        assert FieldCount([c][1..]) == 0;
      case Some(s) =>
        AllFieldsLength(s);
        assert Chain(c)[1..] == Chain(s);
    }
  }

  /** A field is collected exactly when some class of the chain declares it. */
  lemma {:induction false} AllFieldsMembership(c: Class, f: Field)
    ensures f in AllFields(c) <==> exists k :: 0 <= k < |Chain(c)| && f in Chain(c)[k].fields
    decreases c
  {
    match c.superclass {
      case None =>
        assert Chain(c) == [c];
      case Some(s) =>
        AllFieldsMembership(s, f);
        assert Chain(c) == [c] + Chain(s);
        if f in AllFields(s) {
          var k :| 0 <= k < |Chain(s)| && f in Chain(s)[k].fields;
          assert Chain(c)[k + 1] == Chain(s)[k];
        }
        if exists k :: 0 <= k < |Chain(c)| && f in Chain(c)[k].fields {
          var k :| 0 <= k < |Chain(c)| && f in Chain(c)[k].fields;
          if k > 0 {
            assert Chain(c)[k] == Chain(s)[k - 1];
          }
        }
    }
  }

  /** `getAllFields(clazz)`. */
  method GetAllFields(c: Class) returns (fields: seq<Field>)
    ensures fields == AllFields(c)
  {
    fields := [];
    var cur := Some(c);
    while cur.Some?
      invariant fields + FieldsFrom(cur) == AllFields(c)
      decreases cur
    {
      fields := fields + cur.value.fields;
      cur := cur.value.superclass;
    }
  }

  /** The two field filters of this utility: the fields carrying an annotation, and the
      instance fields that do not carry it. */
  datatype Filter = WithAnnotation(annotation: Annotation) | WithoutAnnotation(annotation: Annotation)

  predicate Keeps(keep: Filter, f: Field) {
    match keep
    case WithAnnotation(a) => a in f.annotations
    case WithoutAnnotation(a) => !f.isStatic && a !in f.annotations
  }

  /** The fields of `fs` that the filter keeps, in their original order. */
  function Select(fs: seq<Field>, keep: Filter): seq<Field> {
    if fs == [] then []
    else Select(fs[..|fs| - 1], keep) + (if Keeps(keep, fs[|fs| - 1]) then [fs[|fs| - 1]] else [])
  }

  /** A selection is no longer than its input and holds exactly the kept fields. */
  lemma {:induction false} SelectMembers(fs: seq<Field>, keep: Filter)
    ensures |Select(fs, keep)| <= |fs|
    ensures forall f :: f in Select(fs, keep) <==> f in fs && Keeps(keep, f)
    decreases |fs|
  {
    if fs != [] {
      var init := fs[..|fs| - 1];
      SelectMembers(init, keep);
      assert fs == init + [fs[|fs| - 1]];
    }
  }

  /** Selection is a filter that keeps order: selecting from a concatenation concatenates
      the selections. */
  lemma {:induction false} SelectAppend(a: seq<Field>, b: seq<Field>, keep: Filter)
    ensures Select(a + b, keep) == Select(a, keep) + Select(b, keep)
    decreases |b|
  {
    if b == [] {
      assert a + b == a;
    } else {
      var b' := b[..|b| - 1];
      assert (a + b)[..|a + b| - 1] == a + b';
      assert (a + b)[|a + b| - 1] == b[|b| - 1];
      SelectAppend(a, b', keep);
    }
  }

  /** The fields carrying the annotation. */
  function Annotated(fs: seq<Field>, annotation: Annotation): seq<Field> {
    Select(fs, WithAnnotation(annotation))
  }

  /** `getAllAnnotatedFields(clazz, annotation)`: the annotated fields of `getAllFields`, in
      order; `NotFoundException` exactly when there is none. */
  method GetAllAnnotatedFields(c: Class, annotation: Annotation) returns (r: Result<seq<Field>, Error>)
    ensures r.Err? <==> forall f :: f in AllFields(c) ==> annotation !in f.annotations
    ensures r.Err? ==> r.error == AnnotationNotFound(annotation, c.name)
    ensures r.Ok? ==> r.value == Annotated(AllFields(c), annotation)
  {
    var all := GetAllFields(c);
    var found: seq<Field> := [];
    for i := 0 to |all|
      invariant found == Annotated(all[..i], annotation)
    {
      assert all[..i + 1][..i] == all[..i];
      if annotation in all[i].annotations {
        found := found + [all[i]];
      }
    }
    assert all[..|all|] == all;
    SelectMembers(all, WithAnnotation(annotation));
    if found == [] {
      r := Err(AnnotationNotFound(annotation, c.name));
    } else {
      assert found[0] in found;
      r := Ok(found);
    }
  }

  // ---------------------------------------------------------------------------------------
  // Dotted names

  /** `buildFullFieldName(parent, child)`: the child alone under a null parent, else `parent.child`. */
  function FullFieldName(parent: Option<string>, child: string): (r: string)
    ensures parent.None? ==> r == child
    ensures parent.Some? ==> |r| == |parent.value| + 1 + |child| && StartsWith(r, parent.value + ".")
  {
    match parent
    case None => child
    case Some(p) => p + "." + child
  }

  /** Under one parent, different children give different dotted names. */
  lemma FullFieldNameInjective(parent: Option<string>, a: string, b: string)
    ensures FullFieldName(parent, a) == FullFieldName(parent, b) ==> a == b
  {
    if parent.Some? && FullFieldName(parent, a) == FullFieldName(parent, b) {
      var n := |parent.value| + 1;
      assert FullFieldName(parent, a)[n..] == a;
      assert FullFieldName(parent, b)[n..] == b;
    }
  }

  /** A dotted name `parent.x` cannot extend `parent.y.` unless `x` itself contains a dot. */
  lemma FullFieldNameNoExtension(parent: Option<string>, x: string, y: string)
    requires '.' !in x
    ensures !StartsWith(FullFieldName(parent, x), FullFieldName(parent, y) + ".")
  {
    var n := match parent case None => 0 case Some(p) => |p| + 1;
    var fx, fy := FullFieldName(parent, x), FullFieldName(parent, y);
    assert fx[n..] == x;
    assert fy[n..] == y;
    assert |fy| == n + |y|;
    assert (fy + ".")[n + |y|] == '.';
    if |fx| > n + |y| {
      assert fx[n + |y|] == x[|y|];
    }
  }

  /** The dotted names of `fs` under the parent, in order. */
  function Names(fs: seq<Field>, parent: Option<string>): seq<string> {
    if fs == [] then [] else Names(fs[..|fs| - 1], parent) + [FullFieldName(parent, fs[|fs| - 1].name)]
  }

  /** The i-th name is the dotted name of the i-th field. */
  lemma {:induction false} NamesAt(fs: seq<Field>, parent: Option<string>)
    ensures |Names(fs, parent)| == |fs|
    ensures forall i :: 0 <= i < |fs| ==> Names(fs, parent)[i] == FullFieldName(parent, fs[i].name)
    decreases |fs|
  {
    if fs != [] {
      NamesAt(fs[..|fs| - 1], parent);
    }
  }

  lemma NamesSnoc(fs: seq<Field>, f: Field, parent: Option<string>)
    ensures Names(fs + [f], parent) == Names(fs, parent) + [FullFieldName(parent, f.name)]
  {
    assert (fs + [f])[..|fs|] == fs;
  }

  // ---------------------------------------------------------------------------------------
  // getAllNestedFields

  /** The map built by putting each field of `fs` under its dotted name, in order: a later
      field with the same name replaces an earlier one. */
  function Entries(fs: seq<Field>, parent: Option<string>): map<string, Field> {
    if fs == [] then map[]
    else Entries(fs[..|fs| - 1], parent)[FullFieldName(parent, fs[|fs| - 1].name) := fs[|fs| - 1]]
  }

  /** The keys are exactly the dotted names of the fields, and each key holds a field of
      that name. */
  lemma {:induction false} EntriesKeys(fs: seq<Field>, parent: Option<string>)
    ensures forall k :: k in Entries(fs, parent) <==> exists f :: f in fs && FullFieldName(parent, f.name) == k
    ensures forall k :: k in Entries(fs, parent) ==>
              Entries(fs, parent)[k] in fs && FullFieldName(parent, Entries(fs, parent)[k].name) == k
    decreases |fs|
  {
    if fs != [] {
      var fs' := fs[..|fs| - 1];
      EntriesKeys(fs', parent);
      assert forall f :: f in fs <==> f in fs' || f == fs[|fs| - 1];
    }
  }

  /** Putting the fields of `a` and then those of `b` is putting all of `a` and then merging
      all of `b` over it. */
  lemma {:induction false} EntriesAppend(a: seq<Field>, b: seq<Field>, parent: Option<string>)
    ensures Entries(a + b, parent) == Entries(a, parent) + Entries(b, parent)
    decreases |b|
  {
    if b == [] {
      assert a + b == a;
    } else {
      var b' := b[..|b| - 1];
      var x := b[|b| - 1];
      assert (a + b)[..|a + b| - 1] == a + b';
      assert (a + b)[|a + b| - 1] == x;
      EntriesAppend(a, b', parent);
      var k := FullFieldName(parent, x.name);
      assert Entries(a + b, parent) == (Entries(a, parent) + Entries(b', parent))[k := x];
      assert Entries(b, parent) == Entries(b', parent)[k := x];
      MergeUpdate(Entries(a, parent), Entries(b', parent), k, x);
    }
  }

  /** Putting a key after a merge is merging the map that has the key put. */
  lemma MergeUpdate<K, V>(m: map<K, V>, n: map<K, V>, k: K, v: V)
    ensures (m + n)[k := v] == m + n[k := v]
  {
  }

  /** The value of a key is the last field of `fs` with that dotted name. */
  lemma {:induction false} EntriesLastWins(fs: seq<Field>, parent: Option<string>, j: nat)
    requires j < |fs|
    requires forall i :: j < i < |fs| ==> FullFieldName(parent, fs[i].name) != FullFieldName(parent, fs[j].name)
    ensures FullFieldName(parent, fs[j].name) in Entries(fs, parent)
    ensures Entries(fs, parent)[FullFieldName(parent, fs[j].name)] == fs[j]
    decreases |fs|
  {
    if j < |fs| - 1 {
      var fs' := fs[..|fs| - 1];
      assert forall i :: j < i < |fs'| ==> fs'[i] == fs[i];
      EntriesLastWins(fs', parent, j);
      assert fs'[j] == fs[j];
    }
  }

  /** No class of the chain is both an entity/DTO class and a declarer of fields: exactly
      the classes on which `getAllNestedFields` returns (`NestedFieldsAsWrittenAgrees` for
      these, `NestedFieldsDivergeInChain` for all others). */
  ghost predicate NestingFree(c: Class)
    decreases c
  {
    (c.domain ==> c.fields == []) && (c.superclass.Some? ==> NestingFree(c.superclass.value))
  }

  /** `getAllNestedFields(clazz, fieldName)` on a class outside the entity/DTO hierarchy: every
      field of `getAllFields(clazz)` under its dotted name, where a field further up the chain
      replaces a field of the same name below it. */
  method GetAllNestedFields(c: Class, parent: Option<string>) returns (m: map<string, Field>)
    requires NestingFree(c)
    ensures m == Entries(AllFields(c), parent)
    decreases c
  {
    m := map[];
    for i := 0 to |c.fields|
      invariant m == Entries(c.fields[..i], parent)
    {
      assert c.fields[..i + 1][..i] == c.fields[..i];
      // the declaring class of c.fields[i] is c, which NestingFree(c) places outside the domain
      m := m[FullFieldName(parent, c.fields[i].name) := c.fields[i]];
    }
    assert c.fields[..|c.fields|] == c.fields;
    match c.superclass {
      case None =>
        assert AllFields(c) == c.fields + [] == c.fields;
      case Some(s) =>
        var inherited := GetAllNestedFields(s, parent);
        EntriesAppend(c.fields, AllFields(s), parent);
        m := m + inherited;
    }
  }

  /** The superclass's map is merged last, so on a clash the ancestor's field wins. */
  lemma AncestorFieldWins(c: Class, parent: Option<string>, k: string)
    requires c.superclass.Some? && k in Entries(AllFields(c.superclass.value), parent)
    ensures k in Entries(AllFields(c), parent)
    ensures Entries(AllFields(c), parent)[k] == Entries(AllFields(c.superclass.value), parent)[k]
  {
    EntriesAppend(c.fields, AllFields(c.superclass.value), parent);
  }

  /** `getAllNestedFields` exactly as written, evaluated with at most `fuel` nested calls
      (None: the fuel ran out). Its recursion for a field asks whether the field's DECLARING
      class is an entity/DTO class, and if so recurses on that class, which is `c` again. */
  function NestedFieldsAsWritten(c: Class, parent: Option<string>, fuel: nat): Option<map<string, Field>>
    decreases fuel, 0, 0
  {
    if fuel == 0 then None
    else
      match DeclaredEntriesAsWritten(c, c.fields, parent, fuel - 1)
      case None => None
      case Some(own) =>
        match c.superclass
        case None => Some(own)
        case Some(s) =>
          match NestedFieldsAsWritten(s, parent, fuel - 1)
          case None => None
          case Some(inherited) => Some(own + inherited)
  }

  /** The loop over the declared fields `fs` of `c` in `NestedFieldsAsWritten`. */
  function DeclaredEntriesAsWritten(c: Class, fs: seq<Field>, parent: Option<string>, fuel: nat)
    : Option<map<string, Field>>
    decreases fuel, 1, |fs|
  {
    if fs == [] then Some(map[])
    else
      match DeclaredEntriesAsWritten(c, fs[..|fs| - 1], parent, fuel)
      case None => None
      case Some(m) =>
        var f := fs[|fs| - 1];
        var full := FullFieldName(parent, f.name);
        if c.domain then
          match NestedFieldsAsWritten(c, Some(full), fuel)
          case None => None
          case Some(nested) => Some(m + nested)
        else Some(m[full := f])
  }

  /** On an entity or DTO class that declares a field, the recursion never returns: whatever
      the fuel, it runs out, because each nested call receives the very same class. */
  lemma {:induction false} NestedFieldsDiverge(c: Class, parent: Option<string>, fuel: nat)
    requires c.domain && c.fields != []
    ensures NestedFieldsAsWritten(c, parent, fuel) == None
    decreases fuel, 0, 0
  {
    if fuel > 0 {
      DeclaredEntriesDiverge(c, c.fields, parent, fuel - 1);
    }
  }

  lemma {:induction false} DeclaredEntriesDiverge(c: Class, fs: seq<Field>, parent: Option<string>, fuel: nat)
    requires c.domain && c.fields != [] && fs != []
    ensures DeclaredEntriesAsWritten(c, fs, parent, fuel) == None
    decreases fuel, 1, |fs|
  {
    var f := fs[|fs| - 1];
    NestedFieldsDiverge(c, Some(FullFieldName(parent, f.name)), fuel);
  }

  /** A class that is not `NestingFree` diverges as well, also when the entity/DTO class that
      declares a field is an ancestor: the walk up the chain reaches it and runs out there. */
  lemma {:induction false} NestedFieldsDivergeInChain(c: Class, parent: Option<string>, fuel: nat)
    requires !NestingFree(c)
    ensures NestedFieldsAsWritten(c, parent, fuel) == None
    decreases c
  {
    if fuel > 0 {
      if c.domain && c.fields != [] {
        NestedFieldsDiverge(c, parent, fuel);
      } else {
        DeclaredEntriesAgree(c, c.fields, parent, fuel - 1);
        NestedFieldsDivergeInChain(c.superclass.value, parent, fuel - 1);
      }
    }
  }

  /** Outside the entity/DTO hierarchy the code as written, given enough fuel, returns the map
      `GetAllNestedFields` promises. */
  lemma {:induction false} NestedFieldsAsWrittenAgrees(c: Class, parent: Option<string>, fuel: nat)
    requires NestingFree(c) && fuel > Depth(c)
    ensures NestedFieldsAsWritten(c, parent, fuel) == Some(Entries(AllFields(c), parent))
    decreases c
  {
    if c.superclass.Some? {
      NestedFieldsAsWrittenAgrees(c.superclass.value, parent, fuel - 1);
    }
    NestedFieldsStep(c, parent, fuel);
  }

  /** One level of `NestedFieldsAsWritten`: the declared fields, then the superclass's map. */
  lemma NestedFieldsStep(c: Class, parent: Option<string>, fuel: nat)
    requires fuel > 0 && (!c.domain || c.fields == [])
    requires c.superclass.Some? ==>
               NestedFieldsAsWritten(c.superclass.value, parent, fuel - 1) ==
               Some(Entries(AllFields(c.superclass.value), parent))
    ensures NestedFieldsAsWritten(c, parent, fuel) == Some(Entries(AllFields(c), parent))
  {
    var own := Entries(c.fields, parent);
    assert DeclaredEntriesAsWritten(c, c.fields, parent, fuel - 1) == Some(own) by {
      DeclaredEntriesAgree(c, c.fields, parent, fuel - 1);
    }
    match c.superclass {
      case None =>
        assert AllFields(c) == c.fields by {
          assert c.fields + [] == c.fields;
        }
      case Some(s) =>
        EntriesAppend(c.fields, AllFields(s), parent);
    }
  }

  lemma {:induction false} DeclaredEntriesAgree(c: Class, fs: seq<Field>, parent: Option<string>, fuel: nat)
    requires !c.domain || fs == []
    ensures DeclaredEntriesAsWritten(c, fs, parent, fuel) == Some(Entries(fs, parent))
    decreases |fs|
  {
    if fs != [] {
      DeclaredEntriesAgree(c, fs[..|fs| - 1], parent, fuel);
    }
  }

  // ---------------------------------------------------------------------------------------
  // getFieldNamesWithAnnotation / getFieldNamesWithOutAnnotation

  /** The instance fields without the annotation. */
  function PlainFields(fs: seq<Field>, annotation: Annotation): seq<Field> {
    Select(fs, WithoutAnnotation(annotation))
  }

  /** One more declared field extends the names by its own dotted name when it is kept. */
  lemma PlainFieldsNamesStep(fs: seq<Field>, i: nat, annotation: Annotation, parent: Option<string>)
    requires i < |fs|
    ensures Names(PlainFields(fs[..i + 1], annotation), parent) ==
            Names(PlainFields(fs[..i], annotation), parent) +
            (if !fs[i].isStatic && annotation !in fs[i].annotations then [FullFieldName(parent, fs[i].name)] else [])
  {
    var f := fs[i];
    assert fs[..i + 1][..i] == fs[..i];
    assert fs[..i + 1][i] == f;
    if !f.isStatic && annotation !in f.annotations {
      assert PlainFields(fs[..i + 1], annotation) == PlainFields(fs[..i], annotation) + [f];
      NamesSnoc(PlainFields(fs[..i], annotation), f, parent);
    } else {
      assert PlainFields(fs[..i + 1], annotation) == PlainFields(fs[..i], annotation);
    }
  }

  lemma AnnotatedNamesStep(fs: seq<Field>, i: nat, annotation: Annotation, parent: Option<string>)
    requires i < |fs|
    ensures Names(Annotated(fs[..i + 1], annotation), parent) ==
            Names(Annotated(fs[..i], annotation), parent) +
            (if annotation in fs[i].annotations then [FullFieldName(parent, fs[i].name)] else [])
  {
    var f := fs[i];
    assert fs[..i + 1][..i] == fs[..i];
    assert fs[..i + 1][i] == f;
    if annotation in f.annotations {
      assert Annotated(fs[..i + 1], annotation) == Annotated(fs[..i], annotation) + [f];
      NamesSnoc(Annotated(fs[..i], annotation), f, parent);
    } else {
      assert Annotated(fs[..i + 1], annotation) == Annotated(fs[..i], annotation);
    }
  }

  /** `getFieldNamesWithOutAnnotation(instance, annotation, entityName)`: the dotted names of the
      non-static, unannotated fields the instance's own class declares, in order. */
  method GetFieldNamesWithOutAnnotation(inst: Instance, annotation: Annotation, entityName: Option<string>)
    returns (names: seq<string>)
    ensures names == Names(PlainFields(inst.cls.fields, annotation), entityName)
  {
    var fs := inst.cls.fields;
    names := [];
    for i := 0 to |fs|
      invariant names == Names(PlainFields(fs[..i], annotation), entityName)
    {
      PlainFieldsNamesStep(fs, i, annotation, entityName);
      var f := fs[i];
      if !f.isStatic && annotation !in f.annotations {
        names := names + [FullFieldName(entityName, f.name)];
      }
    }
    assert fs[..|fs|] == fs;
  }

  /** `getFieldNamesWithAnnotation(instance, annotation, entityName)` on a class none of whose
      unannotated fields has a type that `GenericDto` or `GenericEntity` is assignable to: the
      dotted names of its annotated declared fields, in order. */
  method GetFieldNamesWithAnnotation(inst: Instance, annotation: Annotation, entityName: Option<string>)
    returns (names: seq<string>)
    requires forall f :: f in inst.cls.fields && annotation !in f.annotations ==> !f.widensDomain
    ensures names == Names(Annotated(inst.cls.fields, annotation), entityName)
  {
    var fs := inst.cls.fields;
    names := [];
    for i := 0 to |fs|
      invariant names == Names(Annotated(fs[..i], annotation), entityName)
    {
      AnnotatedNamesStep(fs, i, annotation, entityName);
      var f := fs[i];
      if annotation in f.annotations {
        names := names + [FullFieldName(entityName, f.name)];
      }
    }
    assert fs[..|fs|] == fs;
  }

  // ---------------------------------------------------------------------------------------
  // getFieldValuesWithAnnotation

  /** Whether a value is an entity or DTO object (`instanceof GenericDto || instanceof GenericEntity`). */
  predicate IsDomainObject(v: Value) {
    v.Obj? && v.inst.cls.domain
  }

  /** The map built by the loop of `getFieldValuesWithAnnotation` over the fields `fs` of `inst`,
      or the exception that stops it. Each field's getter is called first; an annotated field is
      put under its dotted name (even when its value is null); an unannotated field whose value
      is an entity or DTO contributes that object's own entries under the extended name. */
  function AnnotatedValues(inst: Instance, fs: seq<Field>, annotation: Annotation, parent: Option<string>)
    : Result<map<string, Value>, Error>
    decreases inst, |fs|
  {
    if fs == [] then Ok(map[])
    else
      match AnnotatedValues(inst, fs[..|fs| - 1], annotation, parent)
      case Err(e) => Err(e)
      case Ok(m) =>
        var f := fs[|fs| - 1];
        match GetFieldValue(inst, f.name)
        case Err(e) => Err(e)
        case Ok(v) =>
          var full := FullFieldName(parent, f.name);
          if annotation in f.annotations then Ok(m[full := v])
          else if IsDomainObject(v) then
            match AnnotatedValues(v.inst, v.inst.cls.fields, annotation, Some(full))
            case Err(e) => Err(e)
            case Ok(nested) => Ok(m + nested)
          else Ok(m)
  }

  /** Once the loop has raised, the later fields do not matter. */
  lemma {:induction false} AnnotatedValuesErrorSticks(
    inst: Instance, fs: seq<Field>, j: nat, annotation: Annotation, parent: Option<string>)
    requires j <= |fs| && AnnotatedValues(inst, fs[..j], annotation, parent).Err?
    ensures AnnotatedValues(inst, fs, annotation, parent) == AnnotatedValues(inst, fs[..j], annotation, parent)
    decreases |fs| - j
  {
    if j < |fs| {
      assert fs[..|fs| - 1][..j] == fs[..j];
      AnnotatedValuesErrorSticks(inst, fs[..|fs| - 1], j, annotation, parent);
    } else {
      assert fs[..j] == fs;
    }
  }

  /** One more field of the loop: its getter's value, and what the field adds to the map. */
  lemma AnnotatedValuesStep(
    inst: Instance, fs: seq<Field>, i: nat, annotation: Annotation, parent: Option<string>, m: map<string, Value>)
    requires i < |fs| && AnnotatedValues(inst, fs[..i], annotation, parent) == Ok(m)
    ensures var full := FullFieldName(parent, fs[i].name);
            AnnotatedValues(inst, fs[..i + 1], annotation, parent) ==
              match GetFieldValue(inst, fs[i].name)
              case Err(e) => Err(e)
              case Ok(v) =>
                if annotation in fs[i].annotations then Ok(m[full := v])
                else if IsDomainObject(v) then
                  match AnnotatedValues(v.inst, v.inst.cls.fields, annotation, Some(full))
                  case Err(e) => Err(e)
                  case Ok(nested) => Ok(m + nested)
                else Ok(m)
  {
    assert fs[..i + 1][..i] == fs[..i];
  }

  /** `getFieldValuesWithAnnotation(instance, annotation, fieldName)`. */
  method GetFieldValuesWithAnnotation(inst: Instance, annotation: Annotation, parent: Option<string>)
    returns (r: Result<map<string, Value>, Error>)
    ensures r == AnnotatedValues(inst, inst.cls.fields, annotation, parent)
    decreases inst
  {
    var fs := inst.cls.fields;
    var m := map[];
    for i := 0 to |fs|
      invariant AnnotatedValues(inst, fs[..i], annotation, parent) == Ok(m)
    {
      AnnotatedValuesStep(inst, fs, i, annotation, parent, m);
      var f := fs[i];
      var value := GetFieldValue(inst, f.name);
      if value.Err? {
        AnnotatedValuesErrorSticks(inst, fs, i + 1, annotation, parent);
        return Err(value.error);
      }
      var v := value.value;
      var full := FullFieldName(parent, f.name);
      if annotation in f.annotations {
        m := m[full := v];
      } else if v.Obj? && v.inst.cls.domain {
        assert v == inst.state[Getter(inst.cls, f.name).value.property];
        var nested := GetFieldValuesWithAnnotation(v.inst, annotation, Some(full));
        if nested.Err? {
          AnnotatedValuesErrorSticks(inst, fs, i + 1, annotation, parent);
          return nested;
        }
        m := m + nested.value;
      }
    }
    assert fs[..|fs|] == fs;
    r := Ok(m);
  }

  /** When the walk succeeds, no getter of a declared field faulted. */
  lemma {:induction false} AnnotatedValuesNoFault(
    inst: Instance, fs: seq<Field>, annotation: Annotation, parent: Option<string>)
    requires AnnotatedValues(inst, fs, annotation, parent).Ok?
    ensures forall f :: f in fs ==> GetFieldValue(inst, f.name).Ok?
    decreases |fs|
  {
    if fs != [] {
      AnnotatedValuesNoFault(inst, fs[..|fs| - 1], annotation, parent);
      assert forall f :: f in fs ==> f in fs[..|fs| - 1] || f == fs[|fs| - 1];
    }
  }

  /** Whether key `k` can come from field `f`: the dotted name of an annotated field, or a name
      below the dotted name of an unannotated one. */
  predicate KeyFrom(k: string, f: Field, annotation: Annotation, parent: Option<string>) {
    if annotation in f.annotations then k == FullFieldName(parent, f.name)
    else StartsWith(k, FullFieldName(parent, f.name) + ".")
  }

  /** Whether key `k` can come from some field of `fs`. */
  ghost predicate KeyFromFields(k: string, fs: seq<Field>, annotation: Annotation, parent: Option<string>) {
    exists f :: f in fs && KeyFrom(k, f, annotation, parent)
  }

  lemma StartsWithTrans(s: string, p: string, q: string)
    requires StartsWith(s, p) && StartsWith(p, q)
    ensures StartsWith(s, q)
  {
    assert s[..|q|] == s[..|p|][..|q|];
  }

  /** Every key a nested walk under `full` produces lies below `full`. */
  lemma KeyBelow(k: string, fs: seq<Field>, annotation: Annotation, full: string)
    requires KeyFromFields(k, fs, annotation, Some(full))
    ensures StartsWith(k, full + ".")
  {
    var g :| g in fs && KeyFrom(k, g, annotation, Some(full));
    var fg := FullFieldName(Some(full), g.name);
    if annotation !in g.annotations {
      assert StartsWith(fg + ".", full + ".") by {
        assert (fg + ".")[..|full| + 1] == fg[..|full| + 1];
      }
      StartsWithTrans(k, fg + ".", full + ".");
    }
  }

  /** The walk writes only keys that come from the walked fields: it never looks beyond the
      fields it is given, so inherited fields contribute nothing. */
  lemma {:induction false} AnnotatedValuesKeys(
    inst: Instance, fs: seq<Field>, annotation: Annotation, parent: Option<string>)
    requires AnnotatedValues(inst, fs, annotation, parent).Ok?
    ensures forall k :: k in AnnotatedValues(inst, fs, annotation, parent).value ==>
              KeyFromFields(k, fs, annotation, parent)
    decreases inst, |fs|
  {
    if fs != [] {
      var fs' := fs[..|fs| - 1];
      var f := fs[|fs| - 1];
      AnnotatedValuesKeys(inst, fs', annotation, parent);
      var m := AnnotatedValues(inst, fs', annotation, parent).value;
      var v := GetFieldValue(inst, f.name).value;
      var full := FullFieldName(parent, f.name);
      forall k | k in m ensures KeyFromFields(k, fs, annotation, parent) {
        var g :| g in fs' && KeyFrom(k, g, annotation, parent);
        assert g in fs;
      }
      if annotation in f.annotations {
        assert KeyFrom(full, f, annotation, parent);
      } else if IsDomainObject(v) {
        assert v == inst.state[Getter(inst.cls, f.name).value.property];
        var nfs := v.inst.cls.fields;
        AnnotatedValuesKeys(v.inst, nfs, annotation, Some(full));
        var nested := AnnotatedValues(v.inst, nfs, annotation, Some(full)).value;
        forall k | k in nested ensures KeyFromFields(k, fs, annotation, parent) {
          KeyBelow(k, nfs, annotation, full);
          assert KeyFrom(k, f, annotation, parent);
        }
      }
    }
  }

  /** Field names as Java declares them: non-empty, without a dot, and distinct within a class. */
  ghost predicate WellNamed(fs: seq<Field>) {
    (forall i :: 0 <= i < |fs| ==> fs[i].name != [] && '.' !in fs[i].name) &&
    (forall i, j :: 0 <= i < j < |fs| ==> fs[i].name != fs[j].name)
  }

  /** An annotated field yields its entry under its dotted name, holding the getter's value,
      null included, and no other entry replaces it. */
  lemma {:induction false} AnnotatedValueRecorded(
    inst: Instance, fs: seq<Field>, annotation: Annotation, parent: Option<string>, j: nat)
    requires WellNamed(fs) && j < |fs| && annotation in fs[j].annotations
    requires AnnotatedValues(inst, fs, annotation, parent).Ok?
    ensures GetFieldValue(inst, fs[j].name).Ok?
    ensures FullFieldName(parent, fs[j].name) in AnnotatedValues(inst, fs, annotation, parent).value
    ensures AnnotatedValues(inst, fs, annotation, parent).value[FullFieldName(parent, fs[j].name)]
            == GetFieldValue(inst, fs[j].name).value
    decreases |fs|
  {
    var fs' := fs[..|fs| - 1];
    var f := fs[|fs| - 1];
    var key := FullFieldName(parent, fs[j].name);
    AnnotatedValuesNoFault(inst, fs, annotation, parent);
    assert fs[j] in fs;
    if j < |fs| - 1 {
      assert fs'[j] == fs[j];
      assert WellNamed(fs') by {
        assert forall i :: 0 <= i < |fs'| ==> fs'[i] == fs[i];
      }
      AnnotatedValueRecorded(inst, fs', annotation, parent, j);
      var full := FullFieldName(parent, f.name);
      FullFieldNameInjective(parent, f.name, fs[j].name);
      assert key != full;
      var v := GetFieldValue(inst, f.name).value;
      if annotation !in f.annotations && IsDomainObject(v) {
        assert v == inst.state[Getter(inst.cls, f.name).value.property];
        var nested := AnnotatedValues(v.inst, v.inst.cls.fields, annotation, Some(full)).value;
        AnnotatedValuesKeys(v.inst, v.inst.cls.fields, annotation, Some(full));
        if key in nested {
          KeyBelow(key, v.inst.cls.fields, annotation, full);
          FullFieldNameNoExtension(parent, fs[j].name, f.name);
          assert false;
        }
      }
    }
  }

  /** Two dotted names `parent.x.` and `parent.y.` of dot-free children that a key both lies
      below are the same name. */
  lemma PrefixClash(parent: Option<string>, x: string, y: string, k: string)
    requires '.' !in x && '.' !in y
    requires StartsWith(k, FullFieldName(parent, x) + ".") && StartsWith(k, FullFieldName(parent, y) + ".")
    ensures x == y
  {
    var n := match parent case None => 0 case Some(p) => |p| + 1;
    var fx, fy := FullFieldName(parent, x), FullFieldName(parent, y);
    assert fx[n..] == x && |fx| == n + |x|;
    assert fy[n..] == y && |fy| == n + |y|;
    assert k[..|fx| + 1] == fx + "." && k[..|fy| + 1] == fy + ".";
    assert k[n + |x|] == (fx + ".")[n + |x|] == '.';
    assert k[n + |y|] == (fy + ".")[n + |y|] == '.';
    if |x| == |y| {
      assert x == k[n..n + |x|] by { assert k[n..n + |x|] == (fx + ".")[n..n + |x|]; }
      assert y == k[n..n + |y|] by { assert k[n..n + |y|] == (fy + ".")[n..n + |y|]; }
    }
  }

  /** Whether key `k` comes from field `f` of `inst`, following the values: the dotted name of
      an annotated field, or a key of the walk of the entity or DTO an unannotated field holds,
      under the field's dotted name. */
  ghost predicate KeySource(k: string, inst: Instance, f: Field, annotation: Annotation, parent: Option<string>) {
    var full := FullFieldName(parent, f.name);
    if annotation in f.annotations then k == full
    else
      var r := GetFieldValue(inst, f.name);
      r.Ok? && IsDomainObject(r.value) &&
      var nested := AnnotatedValues(r.value.inst, r.value.inst.cls.fields, annotation, Some(full));
      nested.Ok? && k in nested.value
  }

  /** Every key of the walk has a source among the walked fields. */
  lemma {:induction false} AnnotatedValuesOrigin(
    inst: Instance, fs: seq<Field>, annotation: Annotation, parent: Option<string>)
    requires AnnotatedValues(inst, fs, annotation, parent).Ok?
    ensures forall k :: k in AnnotatedValues(inst, fs, annotation, parent).value ==>
              exists f :: f in fs && KeySource(k, inst, f, annotation, parent)
    decreases |fs|
  {
    if fs != [] {
      var fs' := fs[..|fs| - 1];
      var f := fs[|fs| - 1];
      AnnotatedValuesOrigin(inst, fs', annotation, parent);
      var m := AnnotatedValues(inst, fs', annotation, parent).value;
      forall k | k in m ensures exists g :: g in fs && KeySource(k, inst, g, annotation, parent) {
        var g :| g in fs' && KeySource(k, inst, g, annotation, parent);
        assert g in fs;
      }
      var v := GetFieldValue(inst, f.name).value;
      var full := FullFieldName(parent, f.name);
      if annotation in f.annotations {
        assert KeySource(full, inst, f, annotation, parent);
      } else if IsDomainObject(v) {
        var nested := AnnotatedValues(v.inst, v.inst.cls.fields, annotation, Some(full)).value;
        forall k | k in nested ensures exists g :: g in fs && KeySource(k, inst, g, annotation, parent) {
          assert KeySource(k, inst, f, annotation, parent);
        }
      }
    }
  }

  /** A key with an unannotated field as its source lies below that field's dotted name. */
  lemma NestedKeyBelow(k: string, inst: Instance, f: Field, annotation: Annotation, parent: Option<string>)
    requires annotation !in f.annotations && KeySource(k, inst, f, annotation, parent)
    ensures StartsWith(k, FullFieldName(parent, f.name) + ".")
  {
    var full := FullFieldName(parent, f.name);
    var v := GetFieldValue(inst, f.name).value;
    AnnotatedValuesKeys(v.inst, v.inst.cls.fields, annotation, Some(full));
    KeyBelow(k, v.inst.cls.fields, annotation, full);
  }

  /** An unannotated field holding an entity or DTO contributes every entry of that object's
      walk, under the field's dotted name and with the nested value, and no other entry
      replaces it. */
  lemma {:induction false} AnnotatedNestedRecorded(
    inst: Instance, fs: seq<Field>, annotation: Annotation, parent: Option<string>, j: nat, k: string)
    requires WellNamed(fs) && j < |fs| && annotation !in fs[j].annotations
    requires AnnotatedValues(inst, fs, annotation, parent).Ok?
    requires KeySource(k, inst, fs[j], annotation, parent)
    ensures k in AnnotatedValues(inst, fs, annotation, parent).value
    ensures var v := GetFieldValue(inst, fs[j].name).value;
            AnnotatedValues(inst, fs, annotation, parent).value[k] ==
            AnnotatedValues(v.inst, v.inst.cls.fields, annotation, Some(FullFieldName(parent, fs[j].name))).value[k]
    decreases |fs|
  {
    var fs' := fs[..|fs| - 1];
    var f := fs[|fs| - 1];
    if j < |fs| - 1 {
      assert fs'[j] == fs[j];
      assert WellNamed(fs') by {
        assert forall i :: 0 <= i < |fs'| ==> fs'[i] == fs[i];
      }
      AnnotatedNestedRecorded(inst, fs', annotation, parent, j, k);
      NestedKeyBelow(k, inst, fs[j], annotation, parent);
      var full := FullFieldName(parent, f.name);
      if annotation in f.annotations {
        FullFieldNameNoExtension(parent, f.name, fs[j].name);
        assert k != full;
      } else {
        var v := GetFieldValue(inst, f.name).value;
        if IsDomainObject(v) {
          var nested := AnnotatedValues(v.inst, v.inst.cls.fields, annotation, Some(full)).value;
          if k in nested {
            NestedKeyBelow(k, inst, f, annotation, parent);
            PrefixClash(parent, f.name, fs[j].name, k);
            assert false;
          }
        }
      }
    }
  }

  /** An unannotated field whose value is not an entity or DTO contributes nothing: no key of
      the walk lies below its dotted name. */
  lemma AnnotatedValuesSkip(
    inst: Instance, fs: seq<Field>, annotation: Annotation, parent: Option<string>, j: nat)
    requires WellNamed(fs) && j < |fs| && annotation !in fs[j].annotations
    requires AnnotatedValues(inst, fs, annotation, parent).Ok?
    requires var r := GetFieldValue(inst, fs[j].name); r.Ok? && !IsDomainObject(r.value)
    ensures forall k :: k in AnnotatedValues(inst, fs, annotation, parent).value ==>
              !StartsWith(k, FullFieldName(parent, fs[j].name) + ".")
  {
    AnnotatedValuesOrigin(inst, fs, annotation, parent);
    var fj := FullFieldName(parent, fs[j].name);
    forall k | k in AnnotatedValues(inst, fs, annotation, parent).value
      ensures !StartsWith(k, fj + ".")
    {
      var g :| g in fs && KeySource(k, inst, g, annotation, parent);
      var i :| 0 <= i < |fs| && fs[i] == g;
      if StartsWith(k, fj + ".") {
        if i == j {
          assert false;
        } else if annotation in g.annotations {
          FullFieldNameNoExtension(parent, g.name, fs[j].name);
          assert false;
        } else {
          NestedKeyBelow(k, inst, g, annotation, parent);
          PrefixClash(parent, g.name, fs[j].name, k);
          assert false;
        }
      }
    }
  }

  /** The keys of the walk are exactly the keys with a source among the walked fields. */
  lemma AnnotatedValuesKeySet(
    inst: Instance, fs: seq<Field>, annotation: Annotation, parent: Option<string>)
    requires WellNamed(fs) && AnnotatedValues(inst, fs, annotation, parent).Ok?
    ensures forall k :: k in AnnotatedValues(inst, fs, annotation, parent).value <==>
              exists f :: f in fs && KeySource(k, inst, f, annotation, parent)
  {
    AnnotatedValuesOrigin(inst, fs, annotation, parent);
    forall k, f | f in fs && KeySource(k, inst, f, annotation, parent)
      ensures k in AnnotatedValues(inst, fs, annotation, parent).value
    {
      var j :| 0 <= j < |fs| && fs[j] == f;
      if annotation in f.annotations {
        AnnotatedValueRecorded(inst, fs, annotation, parent, j);
      } else {
        AnnotatedNestedRecorded(inst, fs, annotation, parent, j, k);
      }
    }
  }

  // ---------------------------------------------------------------------------------------
  // castFieldToType

  /** The target types `castFieldToType` tells apart; any other class is `OtherClass`. An
      `OtherClass` whose name is one of the listed classes or primitives (`java.lang.String`,
      `int`, ...) stands for no class object and behaves as an unsupported class. */
  datatype TargetType =
    | StringClass | IntegerClass | IntPrimitive | LongClass | LongPrimitive
    | FloatClass | FloatPrimitive | DoubleClass | DoublePrimitive | BigDecimalClass
    | LocalDateClass | LocalDateTimeClass | OtherClass(className: string)

  /** `targetType.getName()` */
  function TypeName(t: TargetType): string {
    match t
    case StringClass => "java.lang.String"
    case IntegerClass => "java.lang.Integer"
    case IntPrimitive => "int"
    case LongClass => "java.lang.Long"
    case LongPrimitive => "long"
    case FloatClass => "java.lang.Float"
    case FloatPrimitive => "float"
    case DoubleClass => "java.lang.Double"
    case DoublePrimitive => "double"
    case BigDecimalClass => "java.math.BigDecimal"
    case LocalDateClass => "java.time.LocalDate"
    case LocalDateTimeClass => "java.time.LocalDateTime"
    case OtherClass(n) => n
  }

  /** `targetType.isInstance(value)` for a non-null value. A `Class` object stands for no
      primitive type, so primitive targets never match. */
  predicate IsInstance(v: Value, t: TargetType)
    requires v != Null
  {
    match t
    case StringClass => v.Str?
    case IntegerClass => v.Int?
    case LongClass => v.Long?
    case FloatClass => v.Float?
    case DoubleClass => v.Double?
    case BigDecimalClass => v.Decimal?
    case LocalDateClass => v.Date?
    case LocalDateTimeClass => v.DateTime?
    case OtherClass(n) =>
      n == "java.lang.Object" || n in (if v.Obj? then ClassNames(v.inst.cls) else BuiltinTypeNames(v))
    case _ => false
  }

  /** The value can be returned as an `M` for target `t` (a primitive target is met by its box). */
  predicate Conforms(v: Value, t: TargetType)
    requires v != Null
  {
    match t
    case IntPrimitive => v.Int?
    case LongPrimitive => v.Long?
    case FloatPrimitive => v.Float?
    case DoublePrimitive => v.Double?
    case _ => IsInstance(v, t)
  }

  /** The conversions `castFieldToType` delegates: `toString()`, the boxed types' `valueOf`
      parsers, `new BigDecimal(String)` and `TimeUtil`'s date parsers. Each parser gives None
      where the Java one throws. */
  datatype Converters = Converters(
    toText: Value -> string,
    parseInt: string -> Option<Int32>,
    parseLong: string -> Option<Int64>,
    parseFloat: string -> Option<bv32>,
    parseDouble: string -> Option<bv64>,
    parseDecimal: string -> Option<(int, Int32)>,
    convertLocalDate: string -> Option<int>,
    convertLocalDateTime: string -> Option<(int, NanoOfDay)>)

  /** `castFieldToType(value, targetType)`: null stays null, a value already of the target type
      is returned unchanged, text and numbers are converted through `toString()`, dates through
      `TimeUtil`; a failed conversion raises "Failed to cast value", and a target outside the
      list ("Unsupported cast type") raises as well. */
  function CastFieldToType(cv: Converters, value: Value, target: TargetType): (r: Result<Value, Error>)
    ensures value == Null ==> r == Ok(Null)
    ensures value != Null && IsInstance(value, target) ==> r == Ok(value)
    ensures value != Null && r.Ok? ==> r.value != Null && Conforms(r.value, target)
    ensures r.Err? ==> r.error in {CastFailure(value, TypeName(target)), UnsupportedCast(TypeName(target))}
    ensures value != Null && target == StringClass ==> r.Ok?
    ensures value != Null && target == StringClass && !value.Str? ==> r == Ok(Str(cv.toText(value)))
    ensures value != Null && target.OtherClass? && !IsInstance(value, target) ==>
              r == Err(UnsupportedCast(TypeName(target)))
    ensures target == LocalDateClass && !(value.Null? || value.Str? || value.Date? || value.DateTime?) ==>
              r == Err(UnsupportedCast("java.time.LocalDate"))
    ensures target == LocalDateTimeClass && !(value.Null? || value.Str? || value.Date? || value.DateTime?) ==>
              r == Err(UnsupportedCast("java.time.LocalDateTime"))
  {
    if value == Null then Ok(Null)
    else if IsInstance(value, target) then Ok(value)
    else
      var failed := Err(CastFailure(value, TypeName(target)));
      match target
      case StringClass => Ok(Str(cv.toText(value)))
      case IntegerClass =>
        (match cv.parseInt(cv.toText(value)) case Some(i) => Ok(Int(i)) case None => failed)
      case IntPrimitive =>
        (match cv.parseInt(cv.toText(value)) case Some(i) => Ok(Int(i)) case None => failed)
      case LongClass =>
        (match cv.parseLong(cv.toText(value)) case Some(l) => Ok(Long(l)) case None => failed)
      case LongPrimitive =>
        (match cv.parseLong(cv.toText(value)) case Some(l) => Ok(Long(l)) case None => failed)
      case FloatClass =>
        (match cv.parseFloat(cv.toText(value)) case Some(b) => Ok(Float(b)) case None => failed)
      case FloatPrimitive =>
        (match cv.parseFloat(cv.toText(value)) case Some(b) => Ok(Float(b)) case None => failed)
      case DoubleClass =>
        (match cv.parseDouble(cv.toText(value)) case Some(b) => Ok(Double(b)) case None => failed)
      case DoublePrimitive =>
        (match cv.parseDouble(cv.toText(value)) case Some(b) => Ok(Double(b)) case None => failed)
      case BigDecimalClass =>
        (match cv.parseDecimal(cv.toText(value)) case Some(d) => Ok(Decimal(d.0, d.1)) case None => failed)
      case LocalDateClass =>
        if value.Str? then
          (match cv.convertLocalDate(value.s) case Some(d) => Ok(Date(d)) case None => failed)
        else if value.DateTime? then Ok(Date(value.day))
        else Err(UnsupportedCast(TypeName(target)))
      case LocalDateTimeClass =>
        if value.Str? then
          (match cv.convertLocalDateTime(value.s) case Some(dt) => Ok(DateTime(dt.0, dt.1)) case None => failed)
        else if value.Date? then Ok(DateTime(value.epochDay, 0))
        else Err(UnsupportedCast(TypeName(target)))
      case OtherClass(_) => Err(UnsupportedCast(TypeName(target)))
  }

  /** A target that is a superclass or an interface of the value's class passes the value
      through unchanged, as `isInstance` accepts it: an `Integer` cast to `Number`, a `String`
      cast to `CharSequence`, an object cast to an interface its class implements. */
  lemma CastToSupertype(cv: Converters, i: Int32, s: string, inst: Instance, iface: string)
    requires iface in inst.cls.interfaces
    ensures CastFieldToType(cv, Int(i), OtherClass("java.lang.Number")) == Ok(Int(i))
    ensures CastFieldToType(cv, Str(s), OtherClass("java.lang.CharSequence")) == Ok(Str(s))
    ensures CastFieldToType(cv, Obj(inst), OtherClass(iface)) == Ok(Obj(inst))
  {
    assert "java.lang.Number" in BuiltinTypeNames(Int(i));
    assert "java.lang.CharSequence" in BuiltinTypeNames(Str(s));
  }

  /** Converting between the two date types keeps the day: `toLocalDate()` drops the time and
      `atStartOfDay()` sets it to midnight. */
  lemma DateRoundTrip(cv: Converters, day: int)
    ensures CastFieldToType(cv, Date(day), LocalDateTimeClass) == Ok(DateTime(day, 0))
    ensures CastFieldToType(cv, DateTime(day, 0), LocalDateClass) == Ok(Date(day))
  {
  }
}
