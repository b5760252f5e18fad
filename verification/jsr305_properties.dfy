/**
 Laws of the JSR-305 policy parser: each kind of token writes only its own
 field, the last accepted token of a kind wins, malformed tokens are ignored,
 and parsing a state's description gives the state back.
 */
module Jsr305Properties {
  import opened Opt
  import opened KotlinText
  import opened LinkedMap
  import opened Jsr305

  /** Folding two token lists one after the other is folding their concatenation. */
  lemma {:induction false} FoldConcat(s: Jsr305State, xs: seq<string>, ys: seq<string>)
    ensures Fold(s, xs + ys) == Fold(Fold(s, xs), ys)
    decreases |xs|
  {
    if |xs| == 0 {
      assert xs + ys == ys;
    } else {
      assert (xs + ys)[0] == xs[0];
      assert (xs + ys)[1..] == xs[1..] + ys;
      FoldConcat(Apply(s, Classify(xs[0])), xs[1..], ys);
    }
  }

  lemma FoldSnoc(s: Jsr305State, xs: seq<string>, item: string)
    ensures Fold(s, xs + [item]) == Apply(Fold(s, xs), Classify(item))
  {
    FoldConcat(s, xs, [item]);
  }

  /** Reference reading of the tokens: the level of the last accepted bare-level token. */
  function LastGlobal(items: seq<string>): Option<ReportLevel>
  {
    if |items| == 0 then None
    else match Classify(items[|items| - 1])
      case GlobalLevel(l) => Some(l)
      case _ => LastGlobal(items[..|items| - 1])
  }

  /** The level of the last accepted `under-migration:` token. */
  function LastMigration(items: seq<string>): Option<ReportLevel>
  {
    if |items| == 0 then None
    else match Classify(items[|items| - 1])
      case MigrationLevel(l) => Some(l)
      case _ => LastMigration(items[..|items| - 1])
  }

  /** The level of the last accepted `@name:` token for `name`. */
  function LastUser(items: seq<string>, name: string): Option<ReportLevel>
  {
    if |items| == 0 then None
    else match Classify(items[|items| - 1])
      case UserLevel(n, l) => if n == name then Some(l) else LastUser(items[..|items| - 1], name)
      case _ => LastUser(items[..|items| - 1], name)
  }

  /** One token changes only the field of its own kind. */
  lemma StepChangesOnlyItsField(s: Jsr305State, item: string, other: string)
    ensures var t, r := Classify(item), Apply(s, Classify(item));
      match t
      case UserLevel(name, level) =>
        && r.global == s.global && r.migration == s.migration
        && Get(r.user, name) == Some(level)
        && (other != name ==> Get(r.user, other) == Get(s.user, other))
      case MigrationLevel(level) => r == s.(migration := Some(level))
      case GlobalLevel(level) => r == s.(global := level)
      case Skipped => r == s
  {
    match Classify(item)
    case UserLevel(name, level) => PutGet(s.user, name, level, other);
    case _ =>
  }

  /**
   Last writer wins, field by field: after folding `items` from `s`, each field
   holds the level of the last accepted token of its kind, or its old value.
   */
  lemma {:induction false} FoldIsLastWriterWins(s: Jsr305State, items: seq<string>, name: string)
    ensures Fold(s, items).global == LastGlobal(items).GetOr(s.global)
    ensures Fold(s, items).migration == LastMigration(items).Or(s.migration)
    ensures Get(Fold(s, items).user, name) == LastUser(items, name).Or(Get(s.user, name))
  {
    if |items| > 0 {
      var init, item := items[..|items| - 1], items[|items| - 1];
      assert items == init + [item];
      FoldSnoc(s, init, item);
      FoldIsLastWriterWins(s, init, name);
      var before := Fold(s, init);
      match Classify(item)
      case UserLevel(n, l) => PutGet(before.user, n, l, name);
      case _ =>
    }
  }

  /** `fromArgs`: the global level defaults to WARN, the migration level to null, user levels to absent. */
  lemma FromArgsIsLastWriterWins(items: seq<string>, name: string)
    ensures FromArgs(Some(items)).Value().global == LastGlobal(items).GetOr(WARN)
    ensures FromArgs(Some(items)).Value().migration == LastMigration(items)
    ensures Get(FromArgs(Some(items)).Value().user, name) == LastUser(items, name)
  {
    FoldIsLastWriterWins(DefaultState, items, name);
  }

  /** Null and empty arguments both give the default state, as a fresh object. */
  lemma FromArgsDefault()
    ensures FromArgs(None) == Fresh(DefaultState)
    ensures FromArgs(Some([])) == Fresh(DefaultState)
  {
  }

  /** A skipped token can be dropped from anywhere in the arguments. */
  lemma SkippedTokenIsIgnored(xs: seq<string>, item: string, ys: seq<string>)
    requires Classify(item) == Skipped
    ensures FromArgs(Some(xs + [item] + ys)) == FromArgs(Some(xs + ys))
  {
    FoldConcat(DefaultState, xs + [item], ys);
    FoldConcat(DefaultState, xs, ys);
    FoldSnoc(DefaultState, xs, item);
  }

  /** A level's description is a short word: no ':', no leading `@`, shorter than the migration prefix. */
  lemma DescriptionShape(l: ReportLevel)
    ensures ':' !in l.Description()
    ensures |l.Description()| > 0 && l.Description()[0] != '@'
    ensures |l.Description()| < |MigrationPrefix|
  {
    match l
    case IGNORE =>
    case WARN =>
    case STRICT =>
  }

  /** The three token forms are accepted when well formed. */
  lemma ClassifyAcceptsLevel(l: ReportLevel)
    ensures Classify(l.Description()) == GlobalLevel(l)
  {
    DescriptionShape(l);
  }

  lemma ClassifyAcceptsMigrationToken(l: ReportLevel)
    ensures Classify(MigrationToken(l)) == MigrationLevel(l)
  {
    var item := MigrationToken(l);
    assert StartsWith(item, MigrationPrefix);
    SplitJoin([MigrationPrefix, l.Description()], ':');
  }

  lemma ClassifyAcceptsUserToken(e: Entry<ReportLevel>)
    requires ':' !in e.key
    ensures Classify(UserToken(e)) == UserLevel(e.key, e.value)
  {
    var item := UserToken(e);
    assert item[1..] == e.key + ":" + e.value.Description();
    SplitJoin([e.key, e.value.Description()], ':');
  }

  /** The token of an entry whose name is new appends that entry. */
  lemma ApplyNewUserToken(s: Jsr305State, e: Entry<ReportLevel>)
    requires ':' !in e.key && !HasKey(s.user, e.key)
    ensures Apply(s, Classify(UserToken(e))) == s.(user := s.user + [e])
  {
    ClassifyAcceptsUserToken(e);
    PutNewKey(s.user, e.key, e.value);
  }

  lemma UserTokensSnoc(init: UserLevels, last: Entry<ReportLevel>)
    ensures UserTokens(init + [last]) == UserTokens(init) + [UserToken(last)]
  {
  }

  /** One more user entry with a new, colon-free name: its token appends it. */
  lemma FoldUserTokensStep(s: Jsr305State, init: UserLevels, last: Entry<ReportLevel>)
    requires Fold(s, UserTokens(init)) == s.(user := init)
    requires ':' !in last.key && !HasKey(init, last.key)
    ensures Fold(s, UserTokens(init) + [UserToken(last)]) == s.(user := init + [last])
  {
    FoldSnoc(s, UserTokens(init), UserToken(last));
    ApplyNewUserToken(s.(user := init), last);
  }

  /** Folding the tokens of user entries into an empty user map rebuilds those entries. */
  lemma {:induction false} FoldUserTokens(s: Jsr305State, user: UserLevels)
    requires s.user == []
    requires DistinctKeys(user)
    requires forall i :: 0 <= i < |user| ==> ':' !in user[i].key
    ensures Fold(s, UserTokens(user)) == s.(user := user)
  {
    if |user| > 0 {
      var init, last := user[..|user| - 1], user[|user| - 1];
      assert user == init + [last];
      assert forall i :: 0 <= i < |init| ==> init[i] == user[i];
      FoldUserTokens(s, init);
      assert !HasKey(init, last.key);
      FoldUserTokensStep(s, init, last);
      UserTokensSnoc(init, last);
    }
  }

  /** A user token starts with `@` and has one ':' more than its annotation name. */
  lemma UserTokenShape(e: Entry<ReportLevel>)
    ensures StartsWith(UserToken(e), "@")
    ensures Count(UserToken(e), ':') == Count(e.key, ':') + 1
  {
    var key, desc := e.key, e.value.Description();
    var tail := [':'] + desc;
    assert UserToken(e) == ['@'] + (key + tail);
    DescriptionShape(e.value);
    CountCons('@', key + tail, ':');
    CountConcat(key, tail, ':');
    CountCons(':', desc, ':');
  }

  /**
   The round trip needs annotation names free of ':': the token of a name that
   holds one splits into too many parts and is dropped on re-parsing.
   */
  lemma ColonInNameIsSkipped(e: Entry<ReportLevel>)
    requires ':' in e.key
    ensures Classify(UserToken(e)) == Skipped
  {
    UserTokenShape(e);
    ClassifyUserToken(UserToken(e));
  }

  /** The leading tokens of a description set the global and the migration level. */
  lemma FoldLevelTokens(s: Jsr305State)
    ensures Fold(DefaultState, LevelTokens(s)) == Jsr305State(s.global, s.migration, [])
  {
    ClassifyAcceptsLevel(s.global);
    var afterGlobal := DefaultState.(global := s.global);
    assert Fold(DefaultState, [s.global.Description()]) == afterGlobal;
    match s.migration
    case None =>
      assert LevelTokens(s) == [s.global.Description()];
    case Some(m) =>
      ClassifyAcceptsMigrationToken(m);
      assert LevelTokens(s) == [s.global.Description()] + [MigrationToken(m)];
      FoldSnoc(DefaultState, [s.global.Description()], MigrationToken(m));
  }

  /**
   Parsing a state's description gives the state back (when no annotation name
   holds ':'), and yields the DISABLED singleton exactly for the disabled state.
   */
  lemma DescriptionRoundTrip(s: Jsr305State)
    requires Valid(s)
    requires forall i :: 0 <= i < |s.user| ==> ':' !in s.user[i].key
    ensures FromArgs(Some(Description(s))).Value() == s
    ensures FromArgs(Some(Description(s))).Disabled() <==> s == DisabledState
  {
    FoldConcat(DefaultState, LevelTokens(s), UserTokens(s.user));
    FoldLevelTokens(s);
    FoldUserTokens(Jsr305State(s.global, s.migration, []), s.user);
  }

  /** Folding two tokens is applying the first, then the second. */
  lemma FoldPair(s: Jsr305State, a: string, b: string)
    ensures Fold(s, [a, b]) == Apply(Apply(s, Classify(a)), Classify(b))
  {
    assert [a][1..] == [];
    assert [a, b] == [a] + [b];
    FoldSnoc(s, [a], b);
  }

  /** `fromArgs(["ignore", "under-migration:ignore"])` is the DISABLED singleton. */
  lemma IgnoreEverywhereIsDisabled()
    ensures FromArgs(Some([IGNORE.Description(), MigrationToken(IGNORE)])) == DisabledInstance
  {
    ClassifyAcceptsLevel(IGNORE);
    ClassifyAcceptsMigrationToken(IGNORE);
    FoldPair(DefaultState, IGNORE.Description(), MigrationToken(IGNORE));
  }

  /** A parsed state equal to STRICT is not normalised: it stays a fresh object. */
  lemma StrictIsNotNormalised()
    ensures FromArgs(Some([STRICT.Description(), MigrationToken(STRICT)])) == Fresh(StrictState)
  {
    ClassifyAcceptsLevel(STRICT);
    ClassifyAcceptsMigrationToken(STRICT);
    FoldPair(DefaultState, STRICT.Description(), MigrationToken(STRICT));
  }

  /** Only `DISABLED` is normalised: any arguments that parse to STRICT come back as a fresh object. */
  lemma ParsedStrictIsFresh(args: Option<seq<string>>)
    requires Parse(args) == StrictState
    ensures FromArgs(args) == Fresh(StrictState)
  {
  }

  /** An unknown bare token is skipped and a later level still applies. */
  lemma BogusTokenIsSkipped()
    ensures FromArgs(Some(["bogus", "strict"])).Value() == DefaultState.(global := STRICT)
  {
    ClassifyAcceptsLevel(STRICT);
    assert !StartsWith("bogus", "@") && !StartsWith("bogus", MigrationPrefix);
    FoldPair(DefaultState, "bogus", "strict");
  }

  /** `@name:level` and `under-migration:level` tokens whose level is unknown are skipped. */
  lemma UnknownLevelIsSkipped(name: string, raw: string)
    requires ':' !in name && ':' !in raw
    requires FindByDescription(Some(raw)) == None
    ensures Classify("@" + name + ":" + raw) == Skipped
    ensures Classify(MigrationPrefix + ":" + raw) == Skipped
  {
    var item := "@" + name + ":" + raw;
    assert StartsWith(item, "@");
    assert item[1..] == Join([name, raw], ':');
    SplitJoin([name, raw], ':');
    var migration := MigrationPrefix + ":" + raw;
    assert StartsWith(migration, MigrationPrefix);
    assert migration == Join([MigrationPrefix, raw], ':');
    SplitJoin([MigrationPrefix, raw], ':');
  }

  /** A bare `under-migration` token is skipped; it never sets the global level. */
  lemma BareMigrationTokenIsSkipped()
    ensures Classify(MigrationPrefix) == Skipped
  {
    assert MigrationPrefix[0] == 'u';
    assert StartsWith(MigrationPrefix, MigrationPrefix);
    assert ':' !in MigrationPrefix;
    ClassifyMigrationToken(MigrationPrefix);
  }
}
