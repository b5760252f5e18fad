/**
 The JSR-305 report-level policy: a severity level per scope (global, for
 annotations under migration, and per annotation name), parsed from
 command-line tokens with silent skipping of malformed ones, and serialised
 back into tokens.
 */
module Jsr305 {
  import opened Opt
  import opened KotlinText
  import opened LinkedMap

  datatype ReportLevel = IGNORE | WARN | STRICT {

    function Description(): string
    {
      match this
      case IGNORE => "ignore"
      case WARN => "warn"
      case STRICT => "strict"
    }

    predicate IsWarning()
    {
      this == WARN
    }

    predicate IsIgnore()
    {
      this == IGNORE
    }
  }

  /**
   `ReportLevel.findByDescription`: the first level whose description equals
   `description` (case-sensitive), or null; a null description matches none.
   */
  function FindByDescription(description: Option<string>): (r: Option<ReportLevel>)
    ensures r.Some? ==> description == Some(r.value.Description())
    ensures forall l: ReportLevel :: description == Some(l.Description()) ==> r == Some(l)
    ensures description.None? ==> r.None?
  {
    match description
    case None => None
    case Some(d) =>
      if d == IGNORE.Description() then Some(IGNORE)
      else if d == WARN.Description() then Some(WARN)
      else if d == STRICT.Description() then Some(STRICT)
      else None
  }

  /** Per-annotation-name levels, in insertion order. */
  type UserLevels = seq<Entry<ReportLevel>>

  datatype Jsr305State = Jsr305State(global: ReportLevel, migration: Option<ReportLevel>, user: UserLevels)

  const DefaultState := Jsr305State(WARN, None, [])
  const DisabledState := Jsr305State(IGNORE, Some(IGNORE), [])
  const StrictState := Jsr305State(STRICT, Some(STRICT), [])

  /** The user levels form a map: no annotation name appears twice. */
  predicate Valid(s: Jsr305State)
  {
    DistinctKeys(s.user)
  }

  /** The data-class `==`: field-wise, with the user levels compared as maps. */
  predicate ValueEquals(a: Jsr305State, b: Jsr305State)
    ensures a == b ==> ValueEquals(a, b)
  {
    a.global == b.global && a.migration == b.migration && ToMap(a.user) == ToMap(b.user)
  }

  /** The data-class `==` is an equivalence, as `equals` must be. */
  lemma ValueEqualsIsEquivalence(a: Jsr305State, b: Jsr305State, c: Jsr305State)
    ensures ValueEquals(a, a)
    ensures ValueEquals(a, b) ==> ValueEquals(b, a)
    ensures ValueEquals(a, b) && ValueEquals(b, c) ==> ValueEquals(a, c)
  {
  }

  lemma ValueEqualsDisabled(s: Jsr305State)
    ensures ValueEquals(s, DisabledState) <==> s == DisabledState
  {
    if |s.user| > 0 {
      assert HasKey(s.user, s.user[0].key);
    }
  }

  /**
   A state as a Kotlin reference: `fromArgs` hands out the `DISABLED`
   singleton itself when the parsed state equals it, and a fresh object otherwise.
   */
  datatype Jsr305Instance = DisabledInstance | Fresh(state: Jsr305State) {

    function Value(): Jsr305State
    {
      match this
      case DisabledInstance => DisabledState
      case Fresh(s) => s
    }

    /** `disabled()`: the reference test `this === DISABLED`. */
    predicate Disabled()
      ensures Disabled() ==> Value() == DisabledState
    {
      DisabledInstance?
    }
  }

  /** What one command-line token asks for, after the three-way dispatch of `fromArgs`. */
  datatype Token =
    | UserLevel(name: string, level: ReportLevel)
    | MigrationLevel(level: ReportLevel)
    | GlobalLevel(level: ReportLevel)
    | Skipped

  const MigrationPrefix := "under-migration"

  /**
   The body of the `forEach` in `fromArgs`: an `@name:level` token, an
   `under-migration:level` token (a prefix test on the whole token), or a bare
   level; anything malformed is skipped.
   */
  function Classify(item: string): (t: Token)
    ensures t.UserLevel? ==> StartsWith(item, "@")
    ensures t.MigrationLevel? ==> !StartsWith(item, "@") && StartsWith(item, MigrationPrefix)
    ensures t.GlobalLevel? ==> item == t.level.Description()
  {
    if StartsWith(item, "@") then
      var parts := Split(item[1..], ':');
      if |parts| != 2 then Skipped
      else
        match FindByDescription(Some(parts[1]))
        case None => Skipped
        case Some(state) => UserLevel(parts[0], state)
    else if StartsWith(item, MigrationPrefix) then
      var parts := Split(item, ':');
      if |parts| != 2 then Skipped
      else
        match FindByDescription(Some(parts[1]))
        case None => Skipped
        case Some(state) => MigrationLevel(state)
    else
      match FindByDescription(Some(item))
      case None => Skipped
      case Some(level) => GlobalLevel(level)
  }

  /** An `@` token whose remainder splits in two is `@`, the first part, ':', the second part. */
  lemma UserItemParts(item: string)
    requires |item| > 0 && item[0] == '@' && |Split(item[1..], ':')| == 2
    ensures var parts := Split(item[1..], ':');
      item == "@" + parts[0] + ":" + parts[1] && ':' !in parts[0]
  {
    var parts := Split(item[1..], ':');
    SplitPair(item[1..], ':');
    assert item == [item[0]] + item[1..];
  }

  /** An `@` token is accepted only as `@name:level` with no ':' in the name. */
  lemma ClassifyUserToken(item: string)
    requires StartsWith(item, "@")
    ensures var t := Classify(item);
      && (t.UserLevel? ==> item == "@" + t.name + ":" + t.level.Description() && ':' !in t.name)
      && (t.UserLevel? || t == Skipped)
      && (Count(item, ':') != 1 ==> t == Skipped)
  {
    assert item[0] == '@' by {
      assert item[..1][0] == item[0];
    }
    var rest := item[1..];
    assert item == [item[0]] + rest;
    SplitCount(rest, ':');
    CountCons('@', rest, ':');
    if |Split(rest, ':')| == 2 {
      UserItemParts(item);
    }
  }

  /** An `under-migration` token is accepted only with a single ':' before its level. */
  lemma ClassifyMigrationToken(item: string)
    requires !StartsWith(item, "@") && StartsWith(item, MigrationPrefix)
    ensures var t := Classify(item);
      && (t.MigrationLevel? ==> Count(item, ':') == 1 && SubstringAfterLast(item, ':') == t.level.Description())
      && (t.MigrationLevel? || t == Skipped)
      && (Count(item, ':') != 1 ==> t == Skipped)
  {
    SplitCount(item, ':');
    if Count(item, ':') == 1 {
      SplitAtSingleDelimiter(item, ':');
    }
  }

  /**
   The converse: any token that starts with the migration prefix (not only
   `under-migration` itself) and holds a single ':' followed by a level's
   description sets the migration level.
   */
  lemma ClassifyAcceptsPrefixedMigrationToken(item: string, l: ReportLevel)
    requires !StartsWith(item, "@") && StartsWith(item, MigrationPrefix)
    requires Count(item, ':') == 1 && SubstringAfterLast(item, ':') == l.Description()
    ensures Classify(item) == MigrationLevel(l)
  {
    SplitAtSingleDelimiter(item, ':');
  }

  /**
   The three-way dispatch: an accepted `@` token is exactly `@name:level` with
   no ':' in the name; an accepted migration token starts with the migration
   prefix (and not with `@`) and carries its level after its only ':'; an
   accepted bare token is exactly a level's description; an `@` or migration
   token without exactly one ':' is skipped.
   */
  lemma ClassifySound(item: string)
    ensures var t := Classify(item);
      && (t.UserLevel? ==> item == "@" + t.name + ":" + t.level.Description() && ':' !in t.name)
      && (t.MigrationLevel? ==>
            && !StartsWith(item, "@") && StartsWith(item, MigrationPrefix)
            && Count(item, ':') == 1 && SubstringAfterLast(item, ':') == t.level.Description())
      && (t.GlobalLevel? ==> item == t.level.Description())
      && (StartsWith(item, "@") && Count(item, ':') != 1 ==> t == Skipped)
      && (StartsWith(item, MigrationPrefix) && Count(item, ':') != 1 ==> t == Skipped)
  {
    if StartsWith(item, "@") {
      ClassifyUserToken(item);
    } else if StartsWith(item, MigrationPrefix) {
      ClassifyMigrationToken(item);
    }
  }

  /** Records what a token asks for in the field it belongs to. */
  function Apply(s: Jsr305State, t: Token): (r: Jsr305State)
    ensures Valid(s) ==> Valid(r)
  {
    match t
    case UserLevel(name, level) =>
      PutDistinct(s.user, name, level);
      s.(user := Put(s.user, name, level))
    case MigrationLevel(level) => s.(migration := Some(level))
    case GlobalLevel(level) => s.(global := level)
    case Skipped => s
  }

  /** The left fold of `fromArgs` over the tokens, from state `s`. */
  function Fold(s: Jsr305State, items: seq<string>): (r: Jsr305State)
    ensures Valid(s) ==> Valid(r)
    decreases |items|
  {
    if |items| == 0 then s
    else Fold(Apply(s, Classify(items[0])), items[1..])
  }

  /** The triple `fromArgs` builds before normalising it; a null array parses as no tokens. */
  function Parse(args: Option<seq<string>>): (r: Jsr305State)
    ensures Valid(r)
    ensures args.None? || args == Some([]) ==> r == DefaultState
  {
    match args
    case None => DefaultState
    case Some(items) => Fold(DefaultState, items)
  }

  /** `Jsr305State.fromArgs` */
  function FromArgs(args: Option<seq<string>>): (r: Jsr305Instance)
    ensures r.Value() == Parse(args)
    ensures r.Disabled() <==> Parse(args) == DisabledState
    ensures Valid(r.Value())
  {
    var result := Parse(args);
    ValueEqualsDisabled(result);
    if ValueEquals(result, DisabledState) then DisabledInstance else Fresh(result)
  }

  function MigrationToken(level: ReportLevel): string
  {
    MigrationPrefix + ":" + level.Description()
  }

  function UserToken(e: Entry<ReportLevel>): string
  {
    "@" + e.key + ":" + e.value.Description()
  }

  function UserTokens(user: UserLevels): (r: seq<string>)
    ensures |r| == |user|
    ensures forall i :: 0 <= i < |user| ==> r[i] == UserToken(user[i])
  {
    if |user| == 0 then [] else [UserToken(user[0])] + UserTokens(user[1..])
  }

  /** The global level token, then the migration token if there is a migration level. */
  function LevelTokens(s: Jsr305State): (r: seq<string>)
    ensures |r| == 1 + (if s.migration.Some? then 1 else 0)
    ensures r[0] == s.global.Description()
    ensures s.migration.Some? ==> r[1] == MigrationToken(s.migration.value)
  {
    match s.migration
    case None => [s.global.Description()]
    case Some(m) => [s.global.Description(), MigrationToken(m)]
  }

  /**
   `Jsr305State.description`: the global level, then the migration level if
   there is one, then one token per user entry in iteration order.
   */
  function Description(s: Jsr305State): (r: seq<string>)
    ensures |r| == 1 + (if s.migration.Some? then 1 else 0) + |s.user|
    ensures r[0] == s.global.Description()
    ensures s.migration.Some? ==> r[1] == MigrationToken(s.migration.value)
    ensures forall i :: 0 <= i < |s.user| ==> r[|r| - |s.user| + i] == UserToken(s.user[i])
  {
    LevelTokens(s) + UserTokens(s.user)
  }
}
