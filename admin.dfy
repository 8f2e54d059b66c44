/**
 * The administrative commands (cogs/admin.py): the admin gate on every
 * subcommand, reading and setting the admin-tunable configuration with its
 * type coercion, the blacklist commands, and the ticket statistics.
 */
module Admin {
  import opened Wrappers
  import opened Text
  import opened Platform
  import opened Permissions
  import opened Config
  import opened DB = Database

  /** What an admin command answers, without its wording. */
  datatype AdminReply =
    | Denied                                          // cog_check failed
    | UnknownKey(key: string)
    | ConfigEntry(key: string, value: ConfigValue)
    | ConfigListing(settings: map<string, ConfigValue>)
    | InvalidValue(key: string)
    | Updated(key: string, value: ConfigValue)
    | BlacklistedUser(userId: int, reason: string)
    | Unblacklisted(userId: int)
    | NoneBlacklisted
    | BlacklistEntries(listed: seq<(int, string)>)
    | Statistics(total: nat, recent: nat, breakdown: seq<(Status, nat)>)

  /** The words `config_set` reads as true for a boolean setting, after lowercasing. */
  const TrueWords: set<string> := {"true", "1", "yes", "on"}

  /** `blacklist_list` shows at most this many entries. */
  const BlacklistListLimit := 20

  /** The reason `blacklist_add` records when the command is given none. */
  const DefaultReason := "No reason provided"

  /** `7 * 24 * 60 * 60`: the window of the "Last 7 Days" count, in seconds. */
  const WeekSeconds := 604800

  /** The statuses of the breakdown, in the order `stats` lists them. */
  const BreakdownOrder: seq<Status> := [Open, InProgress, Solved, Rejected, Closed]

  /**
   * `config_set`'s conversion of the typed-in text by the type of the current
   * value: bool first (any text is accepted), then int (`int()`, which may
   * raise), then float (`float()`, an uninterpreted parser here), and anything
   * else verbatim.
   */
  function Coerce(current: ConfigValue, input: string, parseFloat: string -> Option<real>): (r: Result<ConfigValue, string>)
    ensures r.Ok? ==> SameType(current, r.value) || (!current.BoolValue? && !current.IntValue? && !current.FloatValue? && r.value == StrValue(input))
    ensures current.BoolValue? ==> r == Ok(BoolValue(Lower(input) in TrueWords))
    ensures current.IntValue? ==> (r.Ok? <==> ParseInt(input).Some?)
    ensures current.StrValue? ==> r == Ok(StrValue(input))
  {
    match current
    case BoolValue(_) => Ok(BoolValue(Lower(input) in TrueWords))
    case IntValue(_) =>
      (match ParseInt(input)
       case Some(n) => Ok(IntValue(n))
       case None => Err("int"))
    case FloatValue(_) =>
      (match parseFloat(input)
       case Some(x) => Ok(FloatValue(x))
       case None => Err("float"))
    case _ => Ok(StrValue(input))
  }

  /** An integer setting typed in as `str(n)` is read back as `n`. */
  lemma CoerceIntRoundTrip(current: int, n: int, parseFloat: string -> Option<real>)
    ensures Coerce(IntValue(current), IntToString(n), parseFloat) == Ok(IntValue(n))
  {
    IntToStringParses(n);
  }

  /** An integer setting refuses a blank input. */
  lemma CoerceIntRejectsBlank(current: int, input: string, parseFloat: string -> Option<real>)
    requires AllSpace(input)
    ensures Coerce(IntValue(current), input, parseFloat).Err?
  {
    ParseIntRejectsBlank(input);
  }

  /**
   * A successful `config_set` of a `to_dict` key changes exactly that
   * attribute, to the coerced value, and every other attribute keeps its value.
   */
  lemma {:induction false} ConfigSetChangesOnlyKey(c: RuntimeConfig, key: string, input: string,
                                                   parseFloat: string -> Option<real>, other: Attr)
    requires key in ToDict(c)
    requires Coerce(GetAttr(c, AttrOf(key).value), input, parseFloat).Ok?
    ensures var a := AttrOf(key).value;
      var v := Coerce(GetAttr(c, a), input, parseFloat).value;
      && GetAttr(ApplyAll(c, [(key, v)]), a) == v
      && (other != a ==> GetAttr(ApplyAll(c, [(key, v)]), other) == GetAttr(c, other))
  {
    var a := AttrOf(key).value;
    DictAttrScalar(c, a);
    CoerceKeepsType(GetAttr(c, a), input, parseFloat);
    ApplySingle(c, a, Coerce(GetAttr(c, a), input, parseFloat).value, other);
  }

  /** Coercing a bool, int, float or string setting, when it succeeds, gives a value of the same type. */
  lemma CoerceKeepsType(current: ConfigValue, input: string, parseFloat: string -> Option<real>)
    requires current.BoolValue? || current.IntValue? || current.FloatValue? || current.StrValue?
    requires Coerce(current, input, parseFloat).Ok?
    ensures SameType(current, Coerce(current, input, parseFloat).value)
  {
  }

  /** The `(user id, reason)` entries of one guild's blacklist. */
  function GuildBlacklist(blacklist: map<(int, int), string>, guildId: int): (r: map<int, string>)
    ensures forall u :: u in r <==> IsBlacklisted(blacklist, guildId, u)
    ensures forall u :: u in r ==> (guildId, u) in blacklist && r[u] == blacklist[(guildId, u)]
  {
    map u | u in (set k | k in blacklist :: k.1) && (guildId, u) in blacklist :: blacklist[(guildId, u)]
  }

  /** The sum of the counts of a breakdown. */
  function BreakdownTotal(breakdown: seq<(Status, nat)>): nat {
    if breakdown == [] then 0 else breakdown[0].1 + BreakdownTotal(breakdown[1..])
  }

  /** `status_dict.get(status, 0)` over the groups of `count_by_status`. */
  function GroupCount(groups: map<Status, nat>, s: Status): nat {
    if s in groups then groups[s] else 0
  }

  /** A missing group is a status with no rows, so the default 0 is its count. */
  lemma GroupCountIsCount(rows: seq<Ticket>, guildId: int, s: Status)
    ensures GroupCount(CountByStatus(rows, guildId), s) == CountStatus(rows, guildId, s)
  {
  }

  /**
   * The admin cog over the store and the loaded configuration; `cog_check`
   * reads the admin roles from that configuration.
   */
  class AdminCog {
    const db: Database
    const config: ConfigModule

    constructor (db: Database, config: ConfigModule)
      ensures this.db == db && this.config == config
    {
      this.db := db;
      this.config := config;
    }

    /** `cog_check`: the author passes when `is_admin` holds under the loaded admin roles. */
    predicate CogCheck(author: Member)
      reads config
      requires config.loaded.Some?
    {
      IsAdmin(author, config.loaded.value.adminRoleIds)
    }

    /**
     * `config_get`: with a key (a non-empty one; an empty key is falsy), that
     * `to_dict` entry or an unknown-key reply; without, the whole of `to_dict`.
     */
    method ConfigGet(author: Member, key: Option<string>) returns (r: AdminReply)
      requires config.loaded.Some?
      ensures !CogCheck(author) ==> r == Denied
      ensures CogCheck(author) ==>
        var d := ToDict(config.loaded.value);
        && (key.None? || key.value == "" ==> r == ConfigListing(d))
        && (key.Some? && key.value != "" && key.value in d ==> r == ConfigEntry(key.value, d[key.value]))
        && (key.Some? && key.value != "" && key.value !in d ==> r == UnknownKey(key.value))
    {
      if !CogCheck(author) {
        return Denied;
      }
      var d := ToDict(config.loaded.value);
      if key.None? || key.value == "" {
        return ConfigListing(d);
      }
      if key.value in d {
        r := ConfigEntry(key.value, d[key.value]);
      } else {
        r := UnknownKey(key.value);
      }
    }

    /**
     * `config_set`: only `to_dict` keys; the text is coerced by the current
     * value's type, and a successful coercion is written with
     * `update_runtime_config(key=value)`.
     */
    method ConfigSet(author: Member, key: string, input: string, parseFloat: string -> Option<real>)
      returns (r: AdminReply)
      requires config.loaded.Some?
      modifies config
      ensures !old(CogCheck(author)) ==> r == Denied && config.loaded == old(config.loaded)
      ensures old(CogCheck(author)) ==>
        var c := old(config.loaded.value);
        && (key !in ToDict(c) ==> r == UnknownKey(key) && config.loaded == old(config.loaded))
        && (key in ToDict(c) ==>
              var coerced := Coerce(GetAttr(c, AttrOf(key).value), input, parseFloat);
              && (coerced.Err? ==> r == InvalidValue(key) && config.loaded == old(config.loaded))
              && (coerced.Ok? ==> r == Updated(key, coerced.value) && config.loaded == Some(ApplyAll(c, [(key, coerced.value)]))))
    {
      if !CogCheck(author) {
        return Denied;
      }
      var c := config.loaded.value;
      if key !in ToDict(c) {
        return UnknownKey(key);
      }
      var coerced := Coerce(GetAttr(c, AttrOf(key).value), input, parseFloat);
      if coerced.Err? {
        return InvalidValue(key);
      }
      config.UpdateRuntimeConfig([(key, coerced.value)]);
      r := Updated(key, coerced.value);
    }

    /**
     * `blacklist_add`: the (guild, user) entry now holds the given reason, or
     * the default reason when the command was given none.
     */
    method BlacklistAdd(author: Member, guildId: int, userId: int, reason: Option<string>) returns (r: AdminReply)
      requires config.loaded.Some?
      requires db.Valid()
      modifies db
      ensures db.Valid() && db.tickets == old(db.tickets)
      ensures !CogCheck(author) ==> r == Denied && db.blacklist == old(db.blacklist)
      ensures CogCheck(author) ==>
        var stored := if reason.Some? then reason.value else DefaultReason;
        r == BlacklistedUser(userId, stored) && db.blacklist == old(db.blacklist)[(guildId, userId) := stored]
    {
      if !CogCheck(author) {
        return Denied;
      }
      var stored := if reason.Some? then reason.value else DefaultReason;
      db.AddBlacklist(guildId, userId, stored);
      r := BlacklistedUser(userId, stored);
    }

    /** `blacklist_remove`: exactly the (guild, user) entry goes, whether or not it existed. */
    method BlacklistRemove(author: Member, guildId: int, userId: int) returns (r: AdminReply)
      requires config.loaded.Some?
      requires db.Valid()
      modifies db
      ensures db.Valid() && db.tickets == old(db.tickets)
      ensures !CogCheck(author) ==> r == Denied && db.blacklist == old(db.blacklist)
      ensures CogCheck(author) ==>
        r == Unblacklisted(userId) && db.blacklist == old(db.blacklist) - {(guildId, userId)}
    {
      if !CogCheck(author) {
        return Denied;
      }
      db.RemoveBlacklist(guildId, userId);
      r := Unblacklisted(userId);
    }

    /**
     * `blacklist_list`: the guild's entries, at most twenty of them, each user
     * once with its reason. The query has no ORDER BY, so which twenty is left
     * open.
     */
    method BlacklistList(author: Member, guildId: int) returns (r: AdminReply)
      requires config.loaded.Some?
      ensures !CogCheck(author) ==> r == Denied
      ensures CogCheck(author) ==>
        var entries := GuildBlacklist(db.blacklist, guildId);
        && (entries == map[] ==> r == NoneBlacklisted)
        && (entries != map[] ==>
              && r.BlacklistEntries?
              && |r.listed| == (if |entries.Keys| < BlacklistListLimit then |entries.Keys| else BlacklistListLimit)
              && (forall i :: 0 <= i < |r.listed| ==> r.listed[i].0 in entries && r.listed[i].1 == entries[r.listed[i].0])
              && (forall i, j :: 0 <= i < j < |r.listed| ==> r.listed[i].0 != r.listed[j].0))
    {
      if !CogCheck(author) {
        return Denied;
      }
      var entries := GuildBlacklist(db.blacklist, guildId);
      if entries == map[] {
        return NoneBlacklisted;
      }
      var lines := TakeEntries(entries, BlacklistListLimit);
      r := BlacklistEntries(lines);
    }

    /**
     * `stats`: the guild's ticket count, the count created in the last seven
     * days, and one count per status in a fixed order, 0 for statuses without
     * rows. The breakdown adds up to the total.
     */
    method Stats(author: Member, guildId: int, now: int) returns (r: AdminReply)
      requires config.loaded.Some?
      ensures !CogCheck(author) ==> r == Denied
      ensures CogCheck(author) ==>
        && r.Statistics?
        && r.total == CountGuild(db.tickets, guildId)
        && r.recent == CountCreatedAfter(db.tickets, guildId, now - WeekSeconds)
        && |r.breakdown| == |BreakdownOrder|
        && (forall i :: 0 <= i < |BreakdownOrder| ==>
              r.breakdown[i] == (BreakdownOrder[i], CountStatus(db.tickets, guildId, BreakdownOrder[i])))
        && BreakdownTotal(r.breakdown) == r.total
    {
      if !CogCheck(author) {
        return Denied;
      }
      var total := CountGuild(db.tickets, guildId);
      var groups := CountByStatus(db.tickets, guildId);
      var recent := CountCreatedAfter(db.tickets, guildId, now - WeekSeconds);
      var lines: seq<(Status, nat)> := [];
      for i := 0 to |BreakdownOrder|
        invariant |lines| == i
        invariant forall k :: 0 <= k < i ==> lines[k] == (BreakdownOrder[k], CountStatus(db.tickets, guildId, BreakdownOrder[k]))
      {
        GroupCountIsCount(db.tickets, guildId, BreakdownOrder[i]);
        lines := lines + [(BreakdownOrder[i], GroupCount(groups, BreakdownOrder[i]))];
      }
      BreakdownAddsUp(db.tickets, guildId, lines);
      r := Statistics(total, recent, lines);
    }
  }

  /** The five counts in the listed order add up to the guild's ticket count. */
  lemma BreakdownAddsUp(rows: seq<Ticket>, guildId: int, breakdown: seq<(Status, nat)>)
    requires |breakdown| == |BreakdownOrder|
    requires forall i :: 0 <= i < |BreakdownOrder| ==> breakdown[i] == (BreakdownOrder[i], CountStatus(rows, guildId, BreakdownOrder[i]))
    ensures BreakdownTotal(breakdown) == CountGuild(rows, guildId)
  {
    StatusCountsSum(rows, guildId);
    var b: seq<(Status, nat)> := breakdown;
    assert BreakdownTotal(b[4..]) == b[4].1 by {
      assert |b[4..][1..]| == 0;
    }
    assert BreakdownTotal(b[3..]) == b[3].1 + BreakdownTotal(b[4..]) by {
      assert b[3..][1..] == b[4..];
    }
    assert BreakdownTotal(b[2..]) == b[2].1 + BreakdownTotal(b[3..]) by {
      assert b[2..][1..] == b[3..];
    }
    assert BreakdownTotal(b[1..]) == b[1].1 + BreakdownTotal(b[2..]) by {
      assert b[1..][1..] == b[2..];
    }
    assert b[0].1 == CountStatus(rows, guildId, Open);
    assert b[1].1 == CountStatus(rows, guildId, InProgress);
    assert b[2].1 == CountStatus(rows, guildId, Solved);
    assert b[3].1 == CountStatus(rows, guildId, Rejected);
    assert b[4].1 == CountStatus(rows, guildId, Closed);
  }

  /** Up to `limit` entries of `entries`, each user once, with its reason. */
  method TakeEntries(entries: map<int, string>, limit: nat) returns (lines: seq<(int, string)>)
    ensures |lines| == if |entries.Keys| < limit then |entries.Keys| else limit
    ensures forall i :: 0 <= i < |lines| ==> lines[i].0 in entries && lines[i].1 == entries[lines[i].0]
    ensures forall i, j :: 0 <= i < j < |lines| ==> lines[i].0 != lines[j].0
  {
    var pending := entries.Keys;
    lines := [];
    while pending != {} && |lines| < limit
      invariant pending <= entries.Keys
      invariant |lines| <= limit && |lines| + |pending| == |entries.Keys|
      invariant forall i :: 0 <= i < |lines| ==> lines[i].0 in entries && lines[i].0 !in pending && lines[i].1 == entries[lines[i].0]
      invariant forall i, j :: 0 <= i < j < |lines| ==> lines[i].0 != lines[j].0
      decreases pending
    {
      var u := PickId(pending);
      lines := lines + [(u, entries[u])];
      pending := pending - {u};
    }
  }
}

