/**
 `KotlinProjectTest.getCandidateClassFiles`: turns test-filter include patterns
 (`pkg.Class` or `pkg.Class.method`) into the `.class` file paths to scan.
 */
module KotlinProjectTest {
  import opened Opt
  import opened KotlinText

  const ClassSuffix := ".class"

  /** `Char.isLowerCase`, restricted to ASCII. */
  predicate IsLowerCase(c: char)
  {
    'a' <= c <= 'z'
  }

  /** Whether the text after the last '.' looks like a method name. */
  predicate NamesMethod(pattern: string)
  {
    var maybeMethodName := SubstringAfterLast(pattern, '.');
    |maybeMethodName| > 0 && IsLowerCase(maybeMethodName[0])
  }

  /** The class a pattern selects: the pattern without its method name, if it names one. */
  function ClassName(pattern: string): (r: string)
    ensures r == pattern || pattern == r + "." + SubstringAfterLast(pattern, '.')
    ensures '.' !in pattern ==> r == pattern
    ensures r != pattern ==> NamesMethod(pattern)
    ensures NamesMethod(pattern) && '.' in pattern ==> r != pattern
  {
    if NamesMethod(pattern) then SubstringBeforeLast(pattern, '.') else pattern
  }

  /** The class file a pattern selects, relative to a test-classes directory. */
  function ClassFilePath(pattern: string): (r: string)
    ensures |r| == |ClassName(pattern)| + |ClassSuffix|
  {
    ReplaceChar(ClassName(pattern), '.', '/') + ClassSuffix
  }

  /** The path is the class name with '.' turned into '/', followed by `.class`. */
  lemma ClassFilePathShape(pattern: string)
    ensures var r := ClassFilePath(pattern);
      && |r| == |ClassName(pattern)| + |ClassSuffix|
      && r[|r| - |ClassSuffix|..] == ClassSuffix
      && '.' !in r[..|r| - |ClassSuffix|]
  {
    var path := ReplaceChar(ClassName(pattern), '.', '/');
    assert (path + ClassSuffix)[..|path|] == path;
  }

  /** The candidate class files: the default set, or the files the patterns select. */
  datatype CandidateClassFiles = DefaultCandidates | ClassFiles(paths: set<string>)

  /**
   `getCandidateClassFiles`: the include patterns of the filter, plus the
   command-line ones when the filter is a `DefaultTestFilter`.
   */
  function GetCandidateClassFiles(includePatterns: set<string>, commandLineIncludePatterns: Option<set<string>>)
    : (r: CandidateClassFiles)
    ensures r.DefaultCandidates? <==> includePatterns == {} && commandLineIncludePatterns.GetOr({}) == {}
    ensures r.ClassFiles? ==> forall p :: p in includePatterns ==> ClassFilePath(p) in r.paths
    ensures r.ClassFiles? ==> forall p :: p in commandLineIncludePatterns.GetOr({}) ==> ClassFilePath(p) in r.paths
    ensures r.ClassFiles? ==> forall path :: path in r.paths ==>
              exists p :: p in includePatterns + commandLineIncludePatterns.GetOr({}) && ClassFilePath(p) == path
  {
    var patterns := includePatterns + commandLineIncludePatterns.GetOr({});
    if patterns == {} then DefaultCandidates
    else ClassFiles(ClassFilePaths(patterns))
  }

  /** The `mapTo(HashSet())` of the patterns to their class files. */
  function ClassFilePaths(patterns: set<string>): set<string>
  {
    set pattern | pattern in patterns :: ClassFilePath(pattern)
  }

  /**
   The path undoes to the class name: dropping ".class" and turning '/' back
   into '.' recovers it, when the class name holds no '/'.
   */
  lemma ClassFilePathRecoversClassName(pattern: string)
    requires '/' !in ClassName(pattern)
    ensures var r := ClassFilePath(pattern);
      ReplaceChar(r[..|r| - |ClassSuffix|], '/', '.') == ClassName(pattern)
  {
    var path := ReplaceChar(ClassName(pattern), '.', '/');
    assert (path + ClassSuffix)[..|path|] == path;
    ReplaceCharInverse(ClassName(pattern), '.', '/');
  }

  /**
   A pattern that names a method selects its class; when that class's own last
   segment is not lower-case, both patterns select the same class file.
   */
  lemma MethodPatternSharesClassFile(className: string, methodName: string)
    requires '.' !in methodName && |methodName| > 0 && IsLowerCase(methodName[0])
    ensures ClassName(className + "." + methodName) == className
    ensures !NamesMethod(className) ==> ClassFilePath(className + "." + methodName) == ClassFilePath(className)
  {
    SubstringAfterLastOfSuffix(className, methodName, '.');
  }

  /** A pattern whose last segment starts with an upper-case letter is taken as a class name. */
  lemma ClassPatternIsKept(pattern: string)
    requires '.' in pattern
    requires var last := SubstringAfterLast(pattern, '.'); |last| > 0 && 'A' <= last[0] <= 'Z'
    ensures ClassName(pattern) == pattern
  {
  }

  lemma ClassFilePathsOfPair(a: string, b: string)
    requires ClassFilePath(a) == ClassFilePath(b)
    ensures ClassFilePaths({a, b}) == {ClassFilePath(b)}
  {
  }

  /** Two patterns that select the same file yield a single path. */
  lemma SameFileCollapses(a: string, b: string)
    requires ClassFilePath(a) == ClassFilePath(b)
    ensures GetCandidateClassFiles({a, b}, None) == ClassFiles({ClassFilePath(b)})
  {
    var none: Option<set<string>> := None;
    assert {a, b} + none.GetOr({}) == {a, b};
    ClassFilePathsOfPair(a, b);
  }

  /**
   Results are collected into a set: `a.B.foo` and `a.B` select the single
   file `a/B.class`.
   */
  lemma PatternsCollapseIntoOneFile(className: string, methodName: string)
    requires '.' !in methodName && |methodName| > 0 && IsLowerCase(methodName[0])
    requires !NamesMethod(className)
    ensures GetCandidateClassFiles({className + "." + methodName, className}, None)
            == ClassFiles({ClassFilePath(className)})
  {
    MethodPatternSharesClassFile(className, methodName);
    SameFileCollapses(className + "." + methodName, className);
  }
}
