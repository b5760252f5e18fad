/**
 `isLowPriorityFromStdlibJre7Or8`: recognises the extension overloads that
 kotlin-stdlib-jre7/8 added in Kotlin 1.1 to the `kotlin`, `kotlin.text`,
 `kotlin.collections` and `kotlin.streams` packages, so that overload
 resolution can rank them below the members they shadow.

 The compiler's descriptors are replaced by plain records holding exactly
 what the classifier reads.
 */
module StdlibJre7Or8 {
  import opened Opt

  /** A fully qualified name as its segments; the root package is `[]`. */
  type FqName = seq<string>

  const BuiltInsPackageName := "kotlin"

  const KotlinPackage: FqName := ["kotlin"]
  const KotlinTextPackage: FqName := ["kotlin", "text"]
  const KotlinCollectionsPackage: FqName := ["kotlin", "collections"]
  const KotlinStreamsPackage: FqName := ["kotlin", "streams"]

  const AutoCloseableFqName: FqName := ["java", "lang", "AutoCloseable"]
  const MatchGroupCollectionFqName: FqName := ["kotlin", "text", "MatchGroupCollection"]
  const MapFqName: FqName := ["kotlin", "collections", "Map"]
  const MutableMapFqName: FqName := ["kotlin", "collections", "MutableMap"]

  /** `LanguageVersion.KOTLIN_1_1.versionString` */
  const Kotlin11VersionString := "1.1"

  /**
   `FqName.shortName()`: the last segment. The root has no short name; `<root>`
   stands in for it, and no call here reaches that case.
   */
  function ShortName(fqName: FqName): string
  {
    if |fqName| == 0 then "<root>" else fqName[|fqName| - 1]
  }

  /** `FqName.startsWith(segment)`: the first segment is `segment`. */
  predicate StartsWithSegment(fqName: FqName, segment: string)
  {
    |fqName| > 0 && fqName[0] == segment
  }

  /** A type: the classifier its constructor declares (if any), and whether it is `String` or `String?`. */
  datatype KotlinType = KotlinType(declaration: Option<Classifier>, isStringOrNullableString: bool)

  datatype ClassifierKind = ClassKind | TypeParameter(upperBounds: seq<KotlinType>)

  /** A classifier descriptor: its short name, its `fqNameSafe`, and whether it is a type parameter. */
  datatype Classifier = Classifier(name: string, fqName: FqName, kind: ClassifierKind)

  datatype ConstantValue = StringValue(text: string) | OtherValue

  /** The `@SinceKotlin` annotation, with the values of its arguments. */
  datatype Annotation = Annotation(arguments: seq<ConstantValue>)

  datatype Container = PackageFragment(packageFqName: FqName) | OtherContainer

  datatype Callable = Callable(
    container: Container,
    name: string,
    extensionReceiver: Option<KotlinType>,
    valueParameters: seq<KotlinType>,
    sinceKotlin: Option<Annotation>)

  /** `ClassifierDescriptor.hasFqName`: both the short name and the full name match. */
  predicate HasFqName(c: Classifier, fqName: FqName)
    ensures HasFqName(c, fqName) ==> c.fqName == fqName && c.name == ShortName(c.fqName)
  {
    c.name == ShortName(fqName) && c.fqName == fqName
  }

  /** The classifier that declares the extension receiver's type, if there is a receiver. */
  function ReceiverClassifier(c: Callable): Option<Classifier>
  {
    match c.extensionReceiver
    case None => None
    case Some(t) => t.declaration
  }

  /** The classifier of the single upper bound of a type-parameter receiver. */
  function SingleBoundClassifier(receiver: Classifier): Option<Classifier>
  {
    match receiver.kind
    case ClassKind => None
    case TypeParameter(bounds) => if |bounds| == 1 then bounds[0].declaration else None
  }

  /**
   The version named by `@SinceKotlin`: present only when the annotation is
   there with a single argument and that argument is a string constant.
   */
  function SinceKotlinVersion(c: Callable): (r: Option<string>)
    ensures r.Some? ==> c.sinceKotlin == Some(Annotation([StringValue(r.value)]))
    ensures forall v: string :: c.sinceKotlin == Some(Annotation([StringValue(v)])) ==> r == Some(v)
  {
    match c.sinceKotlin
    case None => None
    case Some(a) =>
      if |a.arguments| == 1 && a.arguments[0].StringValue? then
        assert a.arguments == [StringValue(a.arguments[0].text)];
        Some(a.arguments[0].text)
      else None
  }

  /** The `when (packageFqName)` dispatch and the shape check of each branch. */
  predicate ShapeMatches(packageFqName: FqName, c: Callable, receiver: Classifier)
    ensures ShapeMatches(packageFqName, c, receiver) ==>
      packageFqName in {KotlinPackage, KotlinTextPackage, KotlinCollectionsPackage, KotlinStreamsPackage}
    ensures packageFqName == KotlinStreamsPackage ==> ShapeMatches(packageFqName, c, receiver)
  {
    if packageFqName == KotlinPackage then
      c.name == "use"
      && match SingleBoundClassifier(receiver)
         case None => false
         case Some(bound) => HasFqName(bound, AutoCloseableFqName)
    else if packageFqName == KotlinTextPackage then
      c.name == "get"
      && HasFqName(receiver, MatchGroupCollectionFqName)
      && |c.valueParameters| == 1 && c.valueParameters[0].isStringOrNullableString
    else if packageFqName == KotlinCollectionsPackage then
      (c.name == "getOrDefault" || (c.name == "remove" && |c.valueParameters| == 2))
      && (HasFqName(receiver, MapFqName) || HasFqName(receiver, MutableMapFqName))
    else if packageFqName == KotlinStreamsPackage then
      true
    else
      false
  }

  // Reference rules: one declarative predicate per kind of low-priority
  // overload, spelled out field by field.

  predicate InPackage(c: Callable, p: FqName)
  {
    c.container == PackageFragment(p)
  }

  /** Whether a classifier is named `name` and declared as `fqName`. */
  predicate Declares(t: KotlinType, name: string, fqName: FqName)
  {
    t.declaration.Some? && t.declaration.value.name == name && t.declaration.value.fqName == fqName
  }

  /** `fun <T : AutoCloseable?, R> T.use(...)` in `kotlin`. */
  predicate UseOnAutoCloseable(c: Callable)
  {
    && InPackage(c, KotlinPackage) && c.name == "use"
    && c.extensionReceiver.Some? && c.extensionReceiver.value.declaration.Some?
    && var receiver := c.extensionReceiver.value.declaration.value;
      && receiver.kind.TypeParameter?
      && |receiver.kind.upperBounds| == 1
      && Declares(receiver.kind.upperBounds[0], "AutoCloseable", ["java", "lang", "AutoCloseable"])
  }

  /** `fun MatchGroupCollection.get(name: String)` in `kotlin.text`. */
  predicate MatchGroupGetByName(c: Callable)
  {
    && InPackage(c, KotlinTextPackage) && c.name == "get"
    && c.extensionReceiver.Some?
    && Declares(c.extensionReceiver.value, "MatchGroupCollection", ["kotlin", "text", "MatchGroupCollection"])
    && |c.valueParameters| == 1 && c.valueParameters[0].isStringOrNullableString
  }

  /** `Map.getOrDefault` (any arity) and two-argument `MutableMap.remove` in `kotlin.collections`. */
  predicate MapDefaultMethod(c: Callable)
  {
    && InPackage(c, KotlinCollectionsPackage)
    && (c.name == "getOrDefault" || (c.name == "remove" && |c.valueParameters| == 2))
    && c.extensionReceiver.Some?
    && (|| Declares(c.extensionReceiver.value, "Map", ["kotlin", "collections", "Map"])
        || Declares(c.extensionReceiver.value, "MutableMap", ["kotlin", "collections", "MutableMap"]))
  }

  /** Every extension in `kotlin.streams`. */
  predicate StreamsExtension(c: Callable)
  {
    InPackage(c, KotlinStreamsPackage) && ReceiverClassifier(c).Some?
  }

  /** `@SinceKotlin("1.1")` with that single string argument. */
  predicate SinceKotlin11(c: Callable)
  {
    && c.sinceKotlin.Some?
    && c.sinceKotlin.value.arguments == [StringValue("1.1")]
  }

  /** `CallableDescriptor.isLowPriorityFromStdlibJre7Or8` */
  function IsLowPriorityFromStdlibJre7Or8(c: Callable): (r: bool)
    ensures r ==> c.container.PackageFragment? && StartsWithSegment(c.container.packageFqName, "kotlin")
    ensures r ==> ReceiverClassifier(c).Some?
    ensures r ==> c.container.packageFqName in {KotlinPackage, KotlinTextPackage, KotlinCollectionsPackage, KotlinStreamsPackage}
    ensures r ==> SinceKotlin11(c)
    ensures r <==> (UseOnAutoCloseable(c) || MatchGroupGetByName(c) || MapDefaultMethod(c) || StreamsExtension(c)) && SinceKotlin11(c)
  {
    match c.container
    case OtherContainer => false
    case PackageFragment(packageFqName) =>
      if !StartsWithSegment(packageFqName, BuiltInsPackageName) then false
      else match ReceiverClassifier(c)
        case None => false
        case Some(receiver) =>
          if !ShapeMatches(packageFqName, c, receiver) then false
          else match SinceKotlinVersion(c)
            case None => false
            case Some(version) => version == Kotlin11VersionString
  }

  /**
   `hasFqName` implies the full names agree; for a classifier whose short name
   is the last segment of its full name, it is exactly full-name equality.
   */
  lemma HasFqNameIsFullNameMatch(c: Classifier, fqName: FqName)
    ensures HasFqName(c, fqName) ==> c.fqName == fqName
    ensures c.name == ShortName(c.fqName) ==> (HasFqName(c, fqName) <==> c.fqName == fqName)
  {
  }

  /** The short-name half is not redundant: a descriptor whose name disagrees is rejected. */
  lemma HasFqNameChecksShortName()
    ensures !HasFqName(Classifier("Closeable", AutoCloseableFqName, ClassKind), AutoCloseableFqName)
  {
  }

  /** Only a `@SinceKotlin` whose single argument is the string "1.1" passes the final gate. */
  lemma OtherVersionsAreNotLowPriority(c: Callable, version: string)
    requires version != Kotlin11VersionString
    ensures !IsLowPriorityFromStdlibJre7Or8(c.(sinceKotlin := Some(Annotation([StringValue(version)]))))
    ensures !IsLowPriorityFromStdlibJre7Or8(c.(sinceKotlin := None))
  {
  }

  /** In `kotlin.streams` the name and the value parameters play no part. */
  lemma StreamsShapeIsFree(c: Callable, name: string, parameters: seq<KotlinType>)
    requires InPackage(c, KotlinStreamsPackage)
    ensures IsLowPriorityFromStdlibJre7Or8(c.(name := name, valueParameters := parameters))
            == IsLowPriorityFromStdlibJre7Or8(c)
  {
  }

  /** Moving a callable into any package other than the four never makes it low priority. */
  lemma OtherPackagesAreNotLowPriority(c: Callable, p: FqName)
    requires p !in {KotlinPackage, KotlinTextPackage, KotlinCollectionsPackage, KotlinStreamsPackage}
    ensures !IsLowPriorityFromStdlibJre7Or8(c.(container := PackageFragment(p)))
    ensures !IsLowPriorityFromStdlibJre7Or8(c.(container := OtherContainer))
  {
  }

  /**
   `T.use` with `T : AutoCloseable` and `@SinceKotlin("1.1")` is low priority in
   `kotlin`, and not in an unrelated package.
   */
  lemma UseScenario()
    ensures var autoCloseable := Classifier("AutoCloseable", AutoCloseableFqName, ClassKind);
      var t := Classifier("T", ["kotlin", "use", "T"], TypeParameter([KotlinType(Some(autoCloseable), false)]));
      var use := Callable(PackageFragment(KotlinPackage), "use", Some(KotlinType(Some(t), false)), [],
                          Some(Annotation([StringValue(Kotlin11VersionString)])));
      && IsLowPriorityFromStdlibJre7Or8(use)
      && !IsLowPriorityFromStdlibJre7Or8(use.(container := PackageFragment(["com", "example"])))
  {
  }

  /** `Map.getOrDefault` in `kotlin.collections` is low priority since "1.1", and not with another version. */
  lemma GetOrDefaultScenario(version: string)
    requires version != Kotlin11VersionString
    ensures var m := Classifier("Map", MapFqName, ClassKind);
      var getOrDefault := Callable(PackageFragment(KotlinCollectionsPackage), "getOrDefault",
                                   Some(KotlinType(Some(m), false)), [],
                                   Some(Annotation([StringValue(Kotlin11VersionString)])));
      IsLowPriorityFromStdlibJre7Or8(getOrDefault)
      && !IsLowPriorityFromStdlibJre7Or8(getOrDefault.(sinceKotlin := Some(Annotation([StringValue(version)]))))
  {
  }
}
