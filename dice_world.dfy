/** What the Dice container learns by reflection, as a fixed table: the
    classes, their constructors' parameters and the subclass relation. */
module DiceWorld {
  import opened PhpValues
  import opened PhpStrings

  /** A parameter's declared type: a class or interface, another type such
      as `int`, or none. */
  datatype Hint = NoHint | ClassHint(cls: string) | TypeHint(name: string)

  datatype ParamInfo = ParamInfo(hint: Hint, allowsNull: bool, variadic: bool, default: Option<PVal>)

  /** One class as reflection describes it: its declared name, its kind,
      its constructor's parameters (None when it has no constructor) and
      the lower-cased names of its methods. A class-hinted parameter holds
      the hinted class's declared name. */
  datatype ClassInfo = ClassInfo(
    name: string,
    isInterface: bool,
    isAbstract: bool,
    isInternal: bool,
    ctor: Option<seq<ParamInfo>>,
    methods: set<string>)

  /** The classes by canonical name, the strict subclass relation (pairs of
      canonical names, interfaces included), the `is_<type>` checks, which
      values `is_callable` accepts, and which argument lists a class's
      constructor (by declared class name) takes without PHP throwing an
      ArgumentCountError or a TypeError. */
  datatype World = World(
    classes: map<string, ClassInfo>,
    parents: set<(string, string)>,
    isType: (string, PVal) -> bool,
    isCallable: PVal -> bool,
    accepts: (string, seq<PVal>) -> bool)

  /** PHP looks classes up without case and without a leading backslash. */
  function Canon(name: string): string {
    ToLower(LTrim(name, '\\'))
  }

  /** `is_subclass_of($a, $b)` on class names. */
  predicate IsSubclassOf(w: World, a: string, b: string) {
    (Canon(a), Canon(b)) in w.parents
  }

  /** `$v instanceof $cls` */
  predicate InstanceOf(w: World, v: PVal, cls: string) {
    v.Obj? && (Canon(v.cls) == Canon(cls) || IsSubclassOf(w, v.cls, cls))
  }

  /** `new ReflectionClass($name)`: None is the ReflectionException. */
  function FindClass(w: World, name: string): (r: Option<ClassInfo>)
    ensures r.Some? <==> Canon(name) in w.classes
  {
    if Canon(name) in w.classes then Some(w.classes[Canon(name)]) else None
  }

  /** `$class->getMethod($m)` finds the method: method names ignore case. */
  predicate HasMethod(c: ClassInfo, m: string) {
    ToLower(m) in c.methods
  }

  /** Spelling a class name with another case or leading backslashes
      reaches the same class and the same place in the hierarchy. */
  lemma {:induction false} CanonIgnoresSlashAndCase(s: string)
    ensures Canon("\\" + s) == Canon(s)
    ensures Canon(ToLower(s)) == Canon(s)
  {
    assert ("\\" + s)[1..] == s;
    LowerTrimCommute(s);
    LowerIdempotent(LTrim(s, '\\'));
  }

  lemma LowerIdempotent(s: string)
    ensures ToLower(ToLower(s)) == ToLower(s)
  {
  }
}
