/**
 * The runtime configuration (config.py): how `load_config` builds it from the
 * environment, its memoisation in the module-level `_config`, the runtime
 * override `update_runtime_config`, and the admin-tunable view `to_dict`.
 */
module Config {
  import opened Wrappers
  import opened Text

  datatype RuntimeConfig = RuntimeConfig(
    botToken: string,
    publicChannelId: int,
    supportChannelId: int,
    logChannelId: int,
    adminRoleIds: seq<int>,
    escalationRoleId: Option<int>,
    dbPath: string,
    allowAnonPublic: bool,
    dmOnClose: bool,
    stalePublicDays: int,
    stalePrivateDays: int,
    reminderHours: int,
    autoPurgeDays: int,
    maxTitleLen: int,
    ticketCooldownSeconds: int,
    duplicateSimilarity: real,
    anonymizePublic: bool,
    inProgressEmoji: string)

  /** A Python value stored in or read from a configuration attribute. */
  datatype ConfigValue =
    | BoolValue(b: bool)
    | IntValue(i: int)
    | FloatValue(f: real)
    | StrValue(s: string)
    | IntListValue(ids: seq<int>)
    | NoneValue

  /** The process environment, `os.getenv`'s source. */
  type Env = map<string, string>

  /** `os.getenv(name, default)` */
  function Getenv(env: Env, name: string, default: string): string {
    if name in env then env[name] else default
  }

  /** `int(os.getenv(name, default))`; the error names the variable whose value `int` refused. */
  function IntSetting(env: Env, name: string, default: string): (r: Result<int, string>)
    ensures r.Err? ==> r.error == name
  {
    match ParseInt(Getenv(env, name, default))
    case Some(v) => Ok(v)
    case None => Err(name)
  }

  /**
   * `[int(r.strip()) for r in raw.split(",") if r.strip().isdigit()]` over the
   * pieces from `k` on.
   */
  function RoleIdsFrom(pieces: seq<string>): (ids: seq<int>)
    ensures |ids| <= |pieces|
    ensures forall i :: 0 <= i < |ids| ==> ids[i] >= 0
  {
    if pieces == [] then [] else PieceIds(pieces[0]) + RoleIdsFrom(pieces[1..])
  }

  /** What one piece contributes: its value when it strips to all digits, else nothing. */
  function PieceIds(p: string): seq<int> {
    var t := Strip(p);
    if IsDecimal(t) then [DigitsValue(t)] else []
  }

  /**
   * An id is kept exactly when some piece, stripped of surrounding whitespace,
   * is all digits with that value; every other piece is skipped.
   */
  lemma {:induction false} RoleIdsFromMembers(pieces: seq<string>)
    ensures forall x :: x in RoleIdsFrom(pieces) <==>
      exists p :: p in pieces && IsDecimal(Strip(p)) && DigitsValue(Strip(p)) == x
  {
    if pieces != [] {
      RoleIdsFromMembers(pieces[1..]);
      assert forall p :: p in pieces <==> p == pieces[0] || p in pieces[1..];
    }
  }

  /** The filter keeps the pieces' order: the ids of `a + b` are those of `a`, then those of `b`. */
  lemma {:induction false} RoleIdsFromAppend(a: seq<string>, b: seq<string>)
    ensures RoleIdsFrom(a + b) == RoleIdsFrom(a) + RoleIdsFrom(b)
  {
    if a != [] {
      var ab := a + b;
      assert ab[0] == a[0] && ab[1..] == a[1..] + b;
      RoleIdsFromAppend(a[1..], b);
    } else {
      assert a + b == b;
    }
  }

  /** The `admin_role_ids` setting: the comma-separated tokens that are all digits, in order. */
  function AdminRoleIds(raw: string): seq<int> {
    RoleIdsFrom(Split(raw, ','))
  }

  lemma AdminRoleIdsOfEmpty()
    ensures AdminRoleIds("") == []
  {
    assert Split("", ',') == [""];
    assert !IsDecimal(Strip(""));
  }

  function RoleIdStrings(ids: seq<nat>): (r: seq<string>)
    ensures |r| == |ids|
    ensures forall i :: 0 <= i < |ids| ==> r[i] == NatToString(ids[i])
  {
    seq(|ids|, i requires 0 <= i < |ids| => NatToString(ids[i]))
  }

  lemma {:induction false} RoleIdsFromStrings(ids: seq<nat>)
    ensures RoleIdsFrom(RoleIdStrings(ids)) == ids
  {
    if ids != [] {
      var pieces := RoleIdStrings(ids);
      var d := pieces[0];
      StripKeepsTrimmed(d);
      DigitsValueOfNatToString(ids[0]);
      assert pieces[1..] == RoleIdStrings(ids[1..]);
      RoleIdsFromStrings(ids[1..]);
      assert [ids[0]] + ids[1..] == ids;
    }
  }

  /** Writing role ids comma-separated and parsing the setting gives them back, in order. */
  lemma AdminRoleIdsRoundTrip(ids: seq<nat>)
    requires |ids| >= 1
    ensures AdminRoleIds(Join(RoleIdStrings(ids), ',')) == ids
  {
    var pieces := RoleIdStrings(ids);
    forall i | 0 <= i < |pieces| ensures ',' !in pieces[i] {
      assert IsDecimal(pieces[i]);
      assert forall k :: 0 <= k < |pieces[i]| ==> pieces[i][k] != ',';
    }
    SplitJoin(pieces, ',');
    RoleIdsFromStrings(ids);
  }

  /** `admin_role_ids` as `load_config` reads it from `ADMIN_ROLE_IDS` (default empty). */
  function AdminRoleIdsSetting(env: Env): seq<int> {
    AdminRoleIds(Getenv(env, "ADMIN_ROLE_IDS", ""))
  }

  /** A flag is set exactly when its variable reads `"1"`. */
  predicate Flag(env: Env, name: string, default: string) {
    Getenv(env, name, default) == "1"
  }

  /** The integer variables `load_config` converts with `int()`, in evaluation order, with their defaults. */
  const IntVars: seq<(string, string)> := [
    ("PUBLIC_CHANNEL_ID", "0"), ("SUPPORT_CHANNEL_ID", "0"), ("LOG_CHANNEL_ID", "0"),
    ("ESCALATION_ROLE_ID", "0"), ("STALE_PUBLIC_DAYS", "10"), ("STALE_PRIVATE_DAYS", "7"),
    ("REMINDER_HOURS", "24"), ("AUTO_PURGE_DAYS", "45"), ("MAX_TITLE_LEN", "90"),
    ("TICKET_COOLDOWN_SECONDS", "120")]

  /** `int()` of each variable in turn; the first refusal stops the evaluation. */
  function IntSettings(env: Env, vars: seq<(string, string)>): (r: Result<seq<int>, string>)
    ensures r.Ok? ==> |r.value| == |vars|
    ensures r.Ok? ==> forall i :: 0 <= i < |vars| ==> IntSetting(env, vars[i].0, vars[i].1) == Ok(r.value[i])
  {
    if vars == [] then Ok([])
    else
      var first := IntSetting(env, vars[0].0, vars[0].1);
      if first.Err? then Err(first.error)
      else
        var rest := IntSettings(env, vars[1..]);
        assert forall i :: 1 <= i < |vars| ==> vars[i] == vars[1..][i - 1];
        if rest.Err? then rest
        else Ok([first.value] + rest.value)
  }

  /**
   * The `RuntimeConfig(...)` that `load_config` builds, or the name of the
   * first variable whose `int()` (or `float()`, given as `parseFloat`) raised.
   * `escalation_role_id` is `int(...) or None`: 0 becomes `None`.
   */
  function ParseConfig(env: Env, parseFloat: string -> Option<real>): (r: Result<RuntimeConfig, string>)
  {
    match IntSettings(env, IntVars)
    case Err(e) => Err(e)
    case Ok(ints) =>
      match parseFloat(Getenv(env, "DUPLICATE_SIMILARITY", "0.78"))
      case None => Err("DUPLICATE_SIMILARITY")
      case Some(similarity) => Ok(Build(env, ints, similarity))
  }

  /** The `RuntimeConfig(...)` call of `load_config`, once every conversion has succeeded. */
  function Build(env: Env, ints: seq<int>, similarity: real): RuntimeConfig
    requires |ints| == |IntVars|
  {
    RuntimeConfig(
      botToken := Getenv(env, "BOT_TOKEN", ""),
      publicChannelId := ints[0],
      supportChannelId := ints[1],
      logChannelId := ints[2],
      adminRoleIds := AdminRoleIdsSetting(env),
      escalationRoleId := if ints[3] == 0 then None else Some(ints[3]),
      dbPath := Getenv(env, "DB_PATH", "./tickets.db"),
      allowAnonPublic := Flag(env, "ALLOW_ANON_PUBLIC", "0"),
      dmOnClose := Flag(env, "DM_ON_CLOSE", "1"),
      stalePublicDays := ints[4],
      stalePrivateDays := ints[5],
      reminderHours := ints[6],
      autoPurgeDays := ints[7],
      maxTitleLen := ints[8],
      ticketCooldownSeconds := ints[9],
      duplicateSimilarity := similarity,
      anonymizePublic := false,
      inProgressEmoji := InProgressEmojiDefault)
  }

  /** A loaded configuration holds the role ids parsed from `ADMIN_ROLE_IDS`. */
  lemma ParseConfigAdminRoles(env: Env, parseFloat: string -> Option<real>)
    requires ParseConfig(env, parseFloat).Ok?
    ensures ParseConfig(env, parseFloat).value.adminRoleIds == AdminRoleIdsSetting(env)
  {
  }

  /**
   * `int(os.getenv("ESCALATION_ROLE_ID", "0")) or None`: a loaded configuration
   * holds `None` when the variable reads 0 and the variable's value otherwise.
   */
  lemma ParseConfigEscalation(env: Env, parseFloat: string -> Option<real>)
    requires ParseConfig(env, parseFloat).Ok?
    ensures ParseInt(Getenv(env, "ESCALATION_ROLE_ID", "0")).Some? &&
      var v := ParseInt(Getenv(env, "ESCALATION_ROLE_ID", "0")).value;
      ParseConfig(env, parseFloat).value.escalationRoleId == if v == 0 then None else Some(v)
  {
    assert IntVars[3] == ("ESCALATION_ROLE_ID", "0");
  }

  /**
   * In a loaded configuration the two flags are set exactly by `"1"`, and the
   * two runtime-only fields hold their dataclass defaults.
   */
  lemma ParseConfigFlags(env: Env, parseFloat: string -> Option<real>)
    requires ParseConfig(env, parseFloat).Ok?
    ensures ParseConfig(env, parseFloat).value.allowAnonPublic <==> Getenv(env, "ALLOW_ANON_PUBLIC", "0") == "1"
    ensures ParseConfig(env, parseFloat).value.dmOnClose <==> Getenv(env, "DM_ON_CLOSE", "1") == "1"
    ensures !ParseConfig(env, parseFloat).value.anonymizePublic
    ensures ParseConfig(env, parseFloat).value.inProgressEmoji == InProgressEmojiDefault
  {
  }

  /** Parsing fails exactly when some integer variable does not parse, or the similarity does not. */
  lemma ParseConfigFails(env: Env, parseFloat: string -> Option<real>)
    ensures ParseConfig(env, parseFloat).Err? <==>
      IntSettings(env, IntVars).Err? || parseFloat(Getenv(env, "DUPLICATE_SIMILARITY", "0.78")).None?
  {
  }

  /** The dataclass default of `in_progress_emoji`, the hammer-and-wrench emoji. */
  const InProgressEmojiDefault: string := "\U{1F6E0}\U{FE0F}"

  /** The attributes of `RuntimeConfig`, one constructor per dataclass field. */
  datatype Attr =
    | BotToken | PublicChannelId | SupportChannelId | LogChannelId | AdminRoleIdsAttr
    | EscalationRoleId | DbPath | AllowAnonPublic | DmOnClose | StalePublicDays
    | StalePrivateDays | ReminderHours | AutoPurgeDays | MaxTitleLen
    | TicketCooldownSeconds | DuplicateSimilarity | AnonymizePublic | InProgressEmoji

  /** The Python name of an attribute. */
  function AttrName(a: Attr): string {
    match a
    case BotToken => "bot_token"
    case PublicChannelId => "public_channel_id"
    case SupportChannelId => "support_channel_id"
    case LogChannelId => "log_channel_id"
    case AdminRoleIdsAttr => "admin_role_ids"
    case EscalationRoleId => "escalation_role_id"
    case DbPath => "db_path"
    case AllowAnonPublic => "allow_anon_public"
    case DmOnClose => "dm_on_close"
    case StalePublicDays => "stale_public_days"
    case StalePrivateDays => "stale_private_days"
    case ReminderHours => "reminder_hours"
    case AutoPurgeDays => "auto_purge_days"
    case MaxTitleLen => "max_title_len"
    case TicketCooldownSeconds => "ticket_cooldown_seconds"
    case DuplicateSimilarity => "duplicate_similarity"
    case AnonymizePublic => "anonymize_public"
    case InProgressEmoji => "in_progress_emoji"
  }

  /** `hasattr(cfg, key)`: the attribute named `key`, if there is one. */
  function AttrOf(key: string): (r: Option<Attr>)
    ensures r.Some? ==> AttrName(r.value) == key
  {
    match key
    case "bot_token" => Some(BotToken)
    case "public_channel_id" => Some(PublicChannelId)
    case "support_channel_id" => Some(SupportChannelId)
    case "log_channel_id" => Some(LogChannelId)
    case "admin_role_ids" => Some(AdminRoleIdsAttr)
    case "escalation_role_id" => Some(EscalationRoleId)
    case "db_path" => Some(DbPath)
    case "allow_anon_public" => Some(AllowAnonPublic)
    case "dm_on_close" => Some(DmOnClose)
    case "stale_public_days" => Some(StalePublicDays)
    case "stale_private_days" => Some(StalePrivateDays)
    case "reminder_hours" => Some(ReminderHours)
    case "auto_purge_days" => Some(AutoPurgeDays)
    case "max_title_len" => Some(MaxTitleLen)
    case "ticket_cooldown_seconds" => Some(TicketCooldownSeconds)
    case "duplicate_similarity" => Some(DuplicateSimilarity)
    case "anonymize_public" => Some(AnonymizePublic)
    case "in_progress_emoji" => Some(InProgressEmoji)
    case _ => None
  }

  /** Every attribute is found under its own name, so names and attributes correspond one to one. */
  lemma AttrOfName(a: Attr)
    ensures AttrOf(AttrName(a)) == Some(a)
  {
  }

  /** `getattr(cfg, name)` for an attribute. */
  function GetAttr(c: RuntimeConfig, a: Attr): ConfigValue {
    match a
    case BotToken => StrValue(c.botToken)
    case PublicChannelId => IntValue(c.publicChannelId)
    case SupportChannelId => IntValue(c.supportChannelId)
    case LogChannelId => IntValue(c.logChannelId)
    case AdminRoleIdsAttr => IntListValue(c.adminRoleIds)
    case EscalationRoleId => if c.escalationRoleId.Some? then IntValue(c.escalationRoleId.value) else NoneValue
    case DbPath => StrValue(c.dbPath)
    case AllowAnonPublic => BoolValue(c.allowAnonPublic)
    case DmOnClose => BoolValue(c.dmOnClose)
    case StalePublicDays => IntValue(c.stalePublicDays)
    case StalePrivateDays => IntValue(c.stalePrivateDays)
    case ReminderHours => IntValue(c.reminderHours)
    case AutoPurgeDays => IntValue(c.autoPurgeDays)
    case MaxTitleLen => IntValue(c.maxTitleLen)
    case TicketCooldownSeconds => IntValue(c.ticketCooldownSeconds)
    case DuplicateSimilarity => FloatValue(c.duplicateSimilarity)
    case AnonymizePublic => BoolValue(c.anonymizePublic)
    case InProgressEmoji => StrValue(c.inProgressEmoji)
  }

  /**
   * `setattr(cfg, name, v)` for a value of the attribute's type (for
   * `escalation_role_id`, an `int` or `None`); a value of another type leaves
   * the configuration as it is.
   */
  function SetAttr(c: RuntimeConfig, a: Attr, v: ConfigValue): RuntimeConfig {
    match a
    case BotToken => if v.StrValue? then c.(botToken := v.s) else c
    case PublicChannelId => if v.IntValue? then c.(publicChannelId := v.i) else c
    case SupportChannelId => if v.IntValue? then c.(supportChannelId := v.i) else c
    case LogChannelId => if v.IntValue? then c.(logChannelId := v.i) else c
    case AdminRoleIdsAttr => if v.IntListValue? then c.(adminRoleIds := v.ids) else c
    case EscalationRoleId =>
      if v.IntValue? then c.(escalationRoleId := Some(v.i))
      else if v.NoneValue? then c.(escalationRoleId := None)
      else c
    case DbPath => if v.StrValue? then c.(dbPath := v.s) else c
    case AllowAnonPublic => if v.BoolValue? then c.(allowAnonPublic := v.b) else c
    case DmOnClose => if v.BoolValue? then c.(dmOnClose := v.b) else c
    case StalePublicDays => if v.IntValue? then c.(stalePublicDays := v.i) else c
    case StalePrivateDays => if v.IntValue? then c.(stalePrivateDays := v.i) else c
    case ReminderHours => if v.IntValue? then c.(reminderHours := v.i) else c
    case AutoPurgeDays => if v.IntValue? then c.(autoPurgeDays := v.i) else c
    case MaxTitleLen => if v.IntValue? then c.(maxTitleLen := v.i) else c
    case TicketCooldownSeconds => if v.IntValue? then c.(ticketCooldownSeconds := v.i) else c
    case DuplicateSimilarity => if v.FloatValue? then c.(duplicateSimilarity := v.f) else c
    case AnonymizePublic => if v.BoolValue? then c.(anonymizePublic := v.b) else c
    case InProgressEmoji => if v.StrValue? then c.(inProgressEmoji := v.s) else c
  }

  /** Whether two values have the same Python type. */
  predicate SameType(a: ConfigValue, b: ConfigValue) {
    match (a, b)
    case (BoolValue(_), BoolValue(_)) => true
    case (IntValue(_), IntValue(_)) => true
    case (FloatValue(_), FloatValue(_)) => true
    case (StrValue(_), StrValue(_)) => true
    case (IntListValue(_), IntListValue(_)) => true
    case _ => false
  }

  /** Setting an attribute to a value of its current type makes `getattr` read that value back. */
  lemma SetAttrThenGet(c: RuntimeConfig, a: Attr, v: ConfigValue)
    requires SameType(GetAttr(c, a), v)
    ensures GetAttr(SetAttr(c, a, v), a) == v
  {
  }

  /** `setattr` on one attribute leaves every other attribute as it was. */
  lemma SetAttrKeepsOthers(c: RuntimeConfig, a: Attr, v: ConfigValue, other: Attr)
    requires other != a
    ensures GetAttr(SetAttr(c, a, v), other) == GetAttr(c, other)
  {
  }

  /** The `for k, v in kwargs.items(): if hasattr(cfg, k): setattr(cfg, k, v)` loop, in order. */
  function ApplyAll(c: RuntimeConfig, kwargs: seq<(string, ConfigValue)>): RuntimeConfig
    decreases |kwargs|
  {
    if kwargs == [] then c
    else ApplyAll(ApplyOne(c, kwargs[0].0, kwargs[0].1), kwargs[1..])
  }

  /** One step of that loop. */
  function ApplyOne(c: RuntimeConfig, key: string, v: ConfigValue): RuntimeConfig {
    match AttrOf(key)
    case Some(a) => SetAttr(c, a, v)
    case None => c
  }

  /** An attribute no keyword names keeps its value through the whole update. */
  lemma {:induction false} ApplyAllKeepsUnnamed(c: RuntimeConfig, kwargs: seq<(string, ConfigValue)>, a: Attr)
    requires forall i :: 0 <= i < |kwargs| ==> kwargs[i].0 != AttrName(a)
    ensures GetAttr(ApplyAll(c, kwargs), a) == GetAttr(c, a)
    decreases |kwargs|
  {
    if kwargs != [] {
      var (k, v) := kwargs[0];
      if AttrOf(k).Some? {
        SetAttrKeepsOthers(c, AttrOf(k).value, v, a);
      }
      ApplyAllKeepsUnnamed(ApplyOne(c, k, v), kwargs[1..], a);
    }
  }

  /** Keywords that name no attribute are ignored. */
  lemma {:induction false} ApplyAllIgnoresUnknown(c: RuntimeConfig, kwargs: seq<(string, ConfigValue)>)
    requires forall i :: 0 <= i < |kwargs| ==> AttrOf(kwargs[i].0).None?
    ensures ApplyAll(c, kwargs) == c
    decreases |kwargs|
  {
    if kwargs != [] {
      ApplyAllIgnoresUnknown(c, kwargs[1..]);
    }
  }

  /** A single keyword of the attribute's type sets exactly that attribute. */
  lemma ApplySingle(c: RuntimeConfig, a: Attr, v: ConfigValue, other: Attr)
    requires SameType(GetAttr(c, a), v)
    ensures GetAttr(ApplyAll(c, [(AttrName(a), v)]), a) == v
    ensures other != a ==> GetAttr(ApplyAll(c, [(AttrName(a), v)]), other) == GetAttr(c, other)
  {
    AttrOfName(a);
    assert [(AttrName(a), v)][1..] == [];
    SetAttrThenGet(c, a, v);
    if other != a {
      SetAttrKeepsOthers(c, a, v, other);
    }
  }

  /** The attributes `to_dict` exposes, the only ones `config_get` and `config_set` accept. */
  const DictAttrs: set<Attr> := {AnonymizePublic, InProgressEmoji, DuplicateSimilarity, TicketCooldownSeconds}

  /** The attributes `to_dict` exposes hold a bool, an int, a float or a string. */
  lemma DictAttrScalar(c: RuntimeConfig, a: Attr)
    requires a in DictAttrs
    ensures var v := GetAttr(c, a); v.BoolValue? || v.IntValue? || v.FloatValue? || v.StrValue?
  {
  }

  /** `to_dict()`: the four admin-tunable attributes under their names, with their values. */
  function ToDict(c: RuntimeConfig): (d: map<string, ConfigValue>)
    ensures forall a :: a in DictAttrs ==> AttrName(a) in d && d[AttrName(a)] == GetAttr(c, a)
    ensures forall k :: k in d <==> AttrOf(k).Some? && AttrOf(k).value in DictAttrs
  {
    AttrOfName(AnonymizePublic);
    AttrOfName(InProgressEmoji);
    AttrOfName(DuplicateSimilarity);
    AttrOfName(TicketCooldownSeconds);
    map a | a in DictAttrs :: AttrName(a) := GetAttr(c, a)
  }

  /**
   * The module-level `_config`: `None` until the first `load_config`, then the
   * configuration every `get_config()` returns and `update_runtime_config` edits.
   */
  class ConfigModule {
    var loaded: Option<RuntimeConfig>

    constructor ()
      ensures loaded == None
    {
      loaded := None;
    }

    /**
     * `load_config()`: once a configuration is loaded it is returned without
     * reading the environment again; before that the environment is parsed, and
     * kept only when parsing succeeded.
     */
    method LoadConfig(env: Env, parseFloat: string -> Option<real>) returns (r: Result<RuntimeConfig, string>)
      modifies this
      ensures old(loaded).Some? ==> r == Ok(old(loaded).value) && loaded == old(loaded)
      ensures old(loaded).None? ==> r == ParseConfig(env, parseFloat)
      ensures loaded == if r.Ok? then Some(r.value) else None
    {
      if loaded.Some? {
        return Ok(loaded.value);
      }
      r := ParseConfig(env, parseFloat);
      if r.Ok? {
        loaded := Some(r.value);
      }
    }

    /**
     * `update_runtime_config(**kwargs)`: each keyword naming an attribute is
     * assigned, in order; the others are ignored.
     */
    method UpdateRuntimeConfig(kwargs: seq<(string, ConfigValue)>)
      requires loaded.Some?
      modifies this
      ensures loaded == Some(ApplyAll(old(loaded).value, kwargs))
    {
      var c := loaded.value;
      var i := 0;
      while i < |kwargs|
        invariant 0 <= i <= |kwargs|
        invariant ApplyAll(c, kwargs[i..]) == ApplyAll(old(loaded).value, kwargs)
      {
        assert kwargs[i..][1..] == kwargs[i + 1..];
        var (k, v) := kwargs[i];
        match AttrOf(k) {
          case Some(a) => c := SetAttr(c, a, v);
          case None =>
        }
        i := i + 1;
      }
      loaded := Some(c);
    }
  }

  /** A second `load_config` returns what the first one loaded, whatever the environment says then. */
  method LoadTwice(m: ConfigModule, env1: Env, env2: Env, parseFloat: string -> Option<real>)
    returns (first: Result<RuntimeConfig, string>, second: Result<RuntimeConfig, string>)
    modifies m
    ensures first.Ok? ==> second == first
  {
    first := m.LoadConfig(env1, parseFloat);
    second := m.LoadConfig(env2, parseFloat);
  }
}
