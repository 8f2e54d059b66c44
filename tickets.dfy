/**
 * The ticket lifecycle (cogs/tickets.py): thread naming by status, the admin
 * fan-out onto threads, the duplicate-title check, and the command handlers,
 * each a chain of guards that either refuses with a reply or writes the
 * ticket row and edits the thread.
 */
module Tickets {
  import opened Wrappers
  import opened Text
  import opened Platform
  import opened Permissions
  import opened Config
  import opened DB = Database
  import opened M = Metrics
  import opened Transcripts

  /** `STATUS_PREFIXES[s]`: the name prefix of each status; an open ticket has none. */
  function PrefixOf(s: Status): string {
    match s
    case Solved => "[Solved]"
    case Rejected => "[Rejected]"
    case InProgress => "[In Progress]"
    case Open => ""
    case Closed => "[Closed]"
  }

  /** `STATUS_PREFIXES.values()`, in the dict's order. */
  const PrefixValues: seq<string> := ["[Solved]", "[Rejected]", "[In Progress]", "", "[Closed]"]

  /** Every status's prefix is one of the listed values. */
  lemma PrefixListed(s: Status) returns (j: int)
    ensures 0 <= j < |PrefixValues| && PrefixValues[j] == PrefixOf(s)
  {
    j := match s case Solved => 0 case Rejected => 1 case InProgress => 2 case Open => 3 case Closed => 4;
  }

  /** `STATUS_PREFIXES.get(key, "")` */
  function PrefixFor(key: string): string {
    match StatusOfKey(key)
    case Some(s) => PrefixOf(s)
    case None => ""
  }

  /**
   * The loop of `normalize_name` over the prefixes from `prefs` on: each
   * non-empty prefix that leads the current name is cut off together with the
   * whitespace after it.
   */
  function StripPrefixes(base: string, prefs: seq<string>): string
    decreases |prefs|
  {
    if prefs == [] then base
    else
      var p := prefs[0];
      var next := if p != "" && StartsWith(base, p) then LStrip(base[|p|..]) else base;
      StripPrefixes(next, prefs[1..])
  }

  /** The name without its known prefixes, under `prefix` (nothing when `prefix` is empty). */
  function Retitle(name: string, prefix: string): string {
    var base := StripPrefixes(name, PrefixValues);
    if prefix != "" then prefix + " " + base else base
  }

  /** `normalize_name(name, target_status)` */
  function NormalizeName(name: string, targetStatus: string): string {
    Retitle(name, PrefixFor(targetStatus))
  }

  /** A name part that `normalize_name` leaves alone: no leading whitespace and no leading known prefix. */
  predicate IsBareName(base: string, prefs: seq<string>) {
    && (base == [] || !IsSpace(base[0]))
    && forall i :: 0 <= i < |prefs| && prefs[i] != "" ==> !StartsWith(base, prefs[i])
  }

  lemma {:induction false} StripBareName(base: string, prefs: seq<string>)
    requires IsBareName(base, prefs)
    ensures StripPrefixes(base, prefs) == base
    decreases |prefs|
  {
    if prefs != [] {
      assert prefs[0] != "" ==> !StartsWith(base, prefs[0]);
      assert forall i :: 0 <= i < |prefs[1..]| ==> prefs[1..][i] == prefs[i + 1];
      StripBareName(base, prefs[1..]);
    }
  }

  /** Non-empty prefixes that already differ in their second character, so no name starts with two of them. */
  predicate SecondCharsDiffer(prefs: seq<string>) {
    && (forall i :: 0 <= i < |prefs| && prefs[i] != "" ==> |prefs[i]| >= 2)
    && (forall i, k :: 0 <= i < k < |prefs| && prefs[i] != "" && prefs[k] != "" ==> prefs[i][1] != prefs[k][1])
  }

  /** A whitespace-free start survives the `lstrip` after a prefix and its space. */
  lemma LStripAfterSpace(base: string)
    requires base == [] || !IsSpace(base[0])
    ensures LStrip(" " + base) == base
  {
    assert (" " + base)[1..] == base;
  }

  /** Stripping a name that is one known prefix, a space and a bare part gives the bare part. */
  lemma {:induction false} StripPrefixed(prefs: seq<string>, j: int, base: string)
    requires 0 <= j < |prefs| && prefs[j] != ""
    requires SecondCharsDiffer(prefs)
    requires IsBareName(base, prefs)
    ensures StripPrefixes(prefs[j] + " " + base, prefs) == base
    decreases |prefs|
  {
    var s := prefs[j] + " " + base;
    var tail := prefs[1..];
    BareTail(prefs, base);
    if j == 0 {
      assert s[..|prefs[0]|] == prefs[0];
      assert s[|prefs[0]|..] == " " + base;
      LStripAfterSpace(base);
      StripBareName(base, tail);
    } else {
      NotLedBy(prefs, j, base);
      StripPrefixed(tail, j - 1, base);
    }
  }

  /** Dropping the first prefix keeps the prefixes apart and the bare part bare. */
  lemma BareTail(prefs: seq<string>, base: string)
    requires prefs != [] && SecondCharsDiffer(prefs) && IsBareName(base, prefs)
    ensures SecondCharsDiffer(prefs[1..]) && IsBareName(base, prefs[1..])
  {
    var tail := prefs[1..];
    assert forall i :: 0 <= i < |tail| ==> tail[i] == prefs[i + 1];
  }

  /** A name led by a later prefix does not start with the first one. */
  lemma NotLedBy(prefs: seq<string>, j: int, base: string)
    requires 0 < j < |prefs| && prefs[j] != "" && SecondCharsDiffer(prefs)
    ensures !(prefs[0] != "" && StartsWith(prefs[j] + " " + base, prefs[0]))
  {
    var s := prefs[j] + " " + base;
    if prefs[0] != "" && |prefs[0]| <= |s| {
      assert s[..|prefs[0]|][1] == prefs[j][1] != prefs[0][1];
    }
  }

  lemma PrefixValuesDiffer()
    ensures SecondCharsDiffer(PrefixValues)
  {
  }

  /** Retitling with a listed prefix keeps the bare part the next rename strips down to. */
  lemma StripRetitled(name: string, first: string)
    requires first in PrefixValues
    requires IsBareName(StripPrefixes(name, PrefixValues), PrefixValues)
    ensures StripPrefixes(Retitle(name, first), PrefixValues) == StripPrefixes(name, PrefixValues)
  {
    var base := StripPrefixes(name, PrefixValues);
    if first != "" {
      var j :| 0 <= j < |PrefixValues| && PrefixValues[j] == first;
      PrefixValuesDiffer();
      StripPrefixed(PrefixValues, j, base);
    } else {
      StripBareName(base, PrefixValues);
    }
  }

  /** `Retitle` with a listed prefix, applied after any other: only the last prefix counts. */
  lemma RetitleLastWins(name: string, first: string, second: string)
    requires first in PrefixValues
    requires IsBareName(StripPrefixes(name, PrefixValues), PrefixValues)
    ensures Retitle(Retitle(name, first), second) == Retitle(name, second)
  {
    StripRetitled(name, first);
  }

  /**
   * When the name minus its known prefixes is bare, renaming is stable: the
   * last target status alone decides the name, so renaming twice to the same
   * status is the same as renaming once.
   */
  lemma NormalizeNameLastWins(name: string, first: string, second: string)
    requires IsBareName(StripPrefixes(name, PrefixValues), PrefixValues)
    ensures NormalizeName(NormalizeName(name, first), second) == NormalizeName(name, second)
  {
    PrefixForListed(first);
    RetitleLastWins(name, PrefixFor(first), PrefixFor(second));
  }

  /** Whatever the key, its prefix is one of the listed values. */
  lemma PrefixForListed(key: string)
    ensures PrefixFor(key) in PrefixValues
  {
    match StatusOfKey(key)
    case Some(s) =>
      var j := PrefixListed(s);
    case None =>
      assert PrefixFor(key) == PrefixValues[3];
  }

  /** A name that differs from the first listed prefix at position `k` passes it unchanged. */
  lemma StripSkip(base: string, prefs: seq<string>, k: nat)
    requires prefs != []
    requires prefs[0] == "" || (k < |prefs[0]| && k < |base| && base[k] != prefs[0][k])
    ensures StripPrefixes(base, prefs) == StripPrefixes(base, prefs[1..])
  {
    if prefs[0] != "" {
      assert !StartsWith(base, prefs[0]) by {
        if |prefs[0]| <= |base| {
          assert base[..|prefs[0]|][k] != prefs[0][k];
        }
      }
    }
  }

  /** A name led by the first listed prefix and a space loses both, with any further leading whitespace. */
  lemma StripCut(first: string, rest: string, prefs: seq<string>)
    requires prefs != [] && prefs[0] == first && first != ""
    ensures StripPrefixes(first + " " + rest, prefs) == StripPrefixes(LStrip(rest), prefs[1..])
  {
    var s := first + " " + rest;
    assert s[..|first|] == first;
    assert s[|first|..] == " " + rest;
    assert (" " + rest)[0] == ' ' && (" " + rest)[1..] == rest;
    assert LStrip(" " + rest) == LStrip(rest);
    assert StartsWith(s, first);
  }

  /** Walks a name led by `[Closed]`, the last listed prefix, through the prefix list from `from` on. */
  lemma {:induction false} StripClosedLead(rest: string, from: nat)
    requires from <= 4
    ensures StripPrefixes("[Closed]" + " " + rest, PrefixValues[from..]) == LStrip(rest)
    decreases 4 - from
  {
    var s := "[Closed]" + " " + rest;
    if from < 4 {
      assert s[1] == 'C';
      assert PrefixValues[from..][0] == PrefixValues[from];
      StripSkip(s, PrefixValues[from..], 1);
      assert PrefixValues[from + 1..] == PrefixValues[from..][1..];
      StripClosedLead(rest, from + 1);
    } else {
      StripCut("[Closed]", rest, PrefixValues[4..]);
      assert PrefixValues[4..][1..] == [];
    }
  }

  lemma PrefixForSolved()
    ensures PrefixFor("solved") == "[Solved]"
  {
    assert StatusOfKey("solved") == Some(Solved);
  }

  /**
   * Stacked prefixes break idempotence: renaming to solved leaves the second
   * `[Closed]` in place, and only the next rename removes it.
   */
  lemma NormalizeNameStackedPrefixes(t: string)
    requires IsBareName(t, PrefixValues)
    ensures NormalizeName("[Closed]" + " " + ("[Closed]" + " " + t), "solved") == "[Solved]" + " " + ("[Closed]" + " " + t)
    ensures NormalizeName("[Solved]" + " " + ("[Closed]" + " " + t), "solved") == "[Solved]" + " " + t
  {
    PrefixForSolved();
    var inner := "[Closed]" + " " + t;
    assert inner[0] == '[';
    LStripAfterSpace(inner);
    assert LStrip(inner) == inner by {
      assert (" " + inner)[1..] == inner;
    }
    StripClosedLead(inner, 0);
    assert PrefixValues[0..] == PrefixValues;
    StripCut("[Solved]", inner, PrefixValues);
    LStripAfterSpace(t);
    assert LStrip(t) == t by {
      assert (" " + t)[1..] == t;
    }
    StripClosedLead(t, 1);
  }

  /** A leading space breaks idempotence too: the first rename keeps it after the new prefix. */
  lemma NormalizeNameLeadingSpace(t: string)
    requires IsBareName(t, PrefixValues)
    ensures NormalizeName(" " + t, "solved") == "[Solved]" + " " + (" " + t)
    ensures NormalizeName("[Solved]" + " " + (" " + t), "solved") == "[Solved]" + " " + t
  {
    PrefixForSolved();
    StripSpaceLead(" " + t, 0);
    assert PrefixValues[0..] == PrefixValues;
    StripSolvedSpaced(t);
  }

  /** A name that starts with a space passes every listed prefix from `from` on untouched. */
  lemma {:induction false} StripSpaceLead(a: string, from: nat)
    requires from <= |PrefixValues| && a != [] && a[0] == ' '
    ensures StripPrefixes(a, PrefixValues[from..]) == a
    decreases |PrefixValues| - from
  {
    if from < |PrefixValues| {
      assert PrefixValues[from..][0] == PrefixValues[from];
      StripSkip(a, PrefixValues[from..], 0);
      assert PrefixValues[from + 1..] == PrefixValues[from..][1..];
      StripSpaceLead(a, from + 1);
    }
  }

  /** `[Solved]`, a space and a space-led bare part strip down to the bare part. */
  lemma StripSolvedSpaced(t: string)
    requires IsBareName(t, PrefixValues)
    ensures StripPrefixes("[Solved]" + " " + (" " + t), PrefixValues) == t
  {
    StripCut("[Solved]", " " + t, PrefixValues);
    LStripAfterSpace(t);
    PrefixValuesDiffer();
    BareTail(PrefixValues, t);
    StripBareName(t, PrefixValues[1..]);
  }

  /** `is_public`: a thread under the public channel whose type is not private. */
  predicate IsPublic(t: Thread, cfg: RuntimeConfig) {
    t.parentId == cfg.publicChannelId && !t.isPrivate
  }

  // ---- Admin fan-out onto threads ----

  /** The ids `add_admins` gathers for one configured role: its non-bot members, if the guild has the role. */
  function RoleAdmins(g: Guild, rid: int): set<int> {
    if rid in g.roleIds then set m | m in RoleMembers(g, rid) && !m.bot :: m.id else {}
  }

  /** `unique` in `add_admins`: the ids gathered over the configured roles. */
  function AdminMemberIds(g: Guild, rids: seq<int>): set<int>
    decreases |rids|
  {
    if rids == [] then {} else AdminMemberIds(g, rids[..|rids| - 1]) + RoleAdmins(g, rids[|rids| - 1])
  }

  /** The member holds one of the configured roles that the guild actually has. */
  predicate HoldsListedRole(g: Guild, m: Member, rids: seq<int>) {
    exists i :: 0 <= i < |rids| && rids[i] in g.roleIds && rids[i] in m.roleIds
  }

  /** `add_admins` targets exactly the non-bot guild members holding an existing configured role. */
  lemma {:induction false} AdminMemberIdsSpec(g: Guild, rids: seq<int>, x: int)
    ensures x in AdminMemberIds(g, rids) <==>
      exists m :: m in g.members.Values && !m.bot && m.id == x && HoldsListedRole(g, m, rids)
    decreases |rids|
  {
    if rids != [] {
      var front := rids[..|rids| - 1];
      var last := rids[|rids| - 1];
      AdminMemberIdsSpec(g, front, x);
      if x in AdminMemberIds(g, rids) {
        if x in AdminMemberIds(g, front) {
          var m :| m in g.members.Values && !m.bot && m.id == x && HoldsListedRole(g, m, front);
          var i :| 0 <= i < |front| && front[i] in g.roleIds && front[i] in m.roleIds;
          assert rids[i] == front[i];
        } else {
          var m :| m in RoleMembers(g, last) && !m.bot && m.id == x;
          assert rids[|rids| - 1] == last;
        }
      } else {
        forall m | m in g.members.Values && !m.bot && m.id == x
          ensures !HoldsListedRole(g, m, rids)
        {
          forall i | 0 <= i < |rids| - 1
            ensures front[i] == rids[i]
          {
          }
          assert last in g.roleIds && last in m.roleIds ==> m in RoleMembers(g, last);
        }
      }
    }
  }

  /** The ids `remove_admins` calls `remove_user` on for one configured role: all its members, bots included. */
  function RoleRemovals(g: Guild, rid: int): set<int> {
    if rid in g.roleIds then MemberIds(RoleMembers(g, rid)) else {}
  }

  /** Every `remove_user` call of `remove_admins`, one per (configured role, member of that role). */
  function RemovalTargets(g: Guild, rids: seq<int>): multiset<int>
    decreases |rids|
  {
    if rids == [] then multiset{} else RemovalTargets(g, rids[..|rids| - 1]) + multiset(RoleRemovals(g, rids[|rids| - 1]))
  }

  /** The ids `remove_admins` takes off the thread. */
  function RemovalIds(g: Guild, rids: seq<int>): set<int>
    decreases |rids|
  {
    if rids == [] then {} else RemovalIds(g, rids[..|rids| - 1]) + RoleRemovals(g, rids[|rids| - 1])
  }

  /** The ids removed are exactly the ids some removal call targets. */
  lemma {:induction false} RemovalIdsTargeted(g: Guild, rids: seq<int>, x: int)
    ensures x in RemovalIds(g, rids) <==> x in RemovalTargets(g, rids)
    decreases |rids|
  {
    if rids != [] {
      RemovalIdsTargeted(g, rids[..|rids| - 1], x);
    }
  }

  /** `remove_admins` does not skip bots: it removes everyone `add_admins` added, and more. */
  lemma {:induction false} AddedAdminsAreRemoved(g: Guild, rids: seq<int>)
    ensures AdminMemberIds(g, rids) <= RemovalIds(g, rids)
    decreases |rids|
  {
    if rids != [] {
      var last := rids[|rids| - 1];
      AddedAdminsAreRemoved(g, rids[..|rids| - 1]);
      assert RoleAdmins(g, last) <= RoleRemovals(g, last);
    }
  }

  /** A bot holding an existing configured role is removed although it was never added. */
  lemma BotAdminIsRemoved(g: Guild, rids: seq<int>, m: Member, i: int)
    requires m in g.members.Values && m.bot
    requires 0 <= i < |rids| && rids[i] in g.roleIds && rids[i] in m.roleIds
    ensures m.id in RemovalIds(g, rids)
  {
    RemovalTargetedOnce(g, rids, m, i);
    RemovalIdsTargeted(g, rids, m.id);
  }

  lemma {:induction false} RemovalTargetedOnce(g: Guild, rids: seq<int>, m: Member, i: int)
    requires m in g.members.Values
    requires 0 <= i < |rids| && rids[i] in g.roleIds && rids[i] in m.roleIds
    ensures RemovalTargets(g, rids)[m.id] >= 1
    decreases |rids|
  {
    var front := rids[..|rids| - 1];
    if i == |rids| - 1 {
      assert m in RoleMembers(g, rids[i]);
      assert m.id in RoleRemovals(g, rids[i]);
    } else {
      assert front[i] == rids[i];
      RemovalTargetedOnce(g, front, m, i);
    }
  }

  /** A member holding two listed roles is targeted once per role, so `remove_user` runs twice for it. */
  lemma {:induction false} RemovalTargetedPerRole(g: Guild, rids: seq<int>, m: Member, i: int, j: int)
    requires m in g.members.Values
    requires 0 <= i < j < |rids|
    requires rids[i] in g.roleIds && rids[i] in m.roleIds
    requires rids[j] in g.roleIds && rids[j] in m.roleIds
    ensures RemovalTargets(g, rids)[m.id] >= 2
    decreases |rids|
  {
    var front := rids[..|rids| - 1];
    assert front[i] == rids[i];
    if j == |rids| - 1 {
      RemovalTargetedOnce(g, front, m, i);
      assert m in RoleMembers(g, rids[j]);
      assert m.id in RoleRemovals(g, rids[j]);
    } else {
      assert front[j] == rids[j];
      RemovalTargetedPerRole(g, front, m, i, j);
    }
  }

  /** `add_admins`: every gathered admin id joins the thread; nothing else about the thread changes. */
  method AddAdmins(thread: Thread, g: Guild, rids: seq<int>)
    modifies thread
    ensures thread.members == old(thread.members) + AdminMemberIds(g, rids)
    ensures thread.name == old(thread.name) && thread.locked == old(thread.locked)
    ensures thread.archived == old(thread.archived) && thread.history == old(thread.history)
  {
    var unique: set<int> := {};
    for k := 0 to |rids|
      invariant unique == AdminMemberIds(g, rids[..k])
    {
      assert rids[..k + 1][..k] == rids[..k];
      unique := unique + RoleAdmins(g, rids[k]);
    }
    assert rids[..|rids|] == rids;
    thread.members := thread.members + unique;
  }

  /** `remove_admins`: removes each configured role's members in turn; `targets` counts the calls per id. */
  method RemoveAdmins(thread: Thread, g: Guild, rids: seq<int>) returns (targets: multiset<int>)
    modifies thread
    ensures targets == RemovalTargets(g, rids)
    ensures thread.members == old(thread.members) - RemovalIds(g, rids)
    ensures thread.name == old(thread.name) && thread.locked == old(thread.locked)
    ensures thread.archived == old(thread.archived) && thread.history == old(thread.history)
  {
    targets := multiset{};
    for k := 0 to |rids|
      invariant targets == RemovalTargets(g, rids[..k])
      invariant thread.members == old(thread.members) - RemovalIds(g, rids[..k])
      invariant thread.name == old(thread.name) && thread.locked == old(thread.locked)
      invariant thread.archived == old(thread.archived) && thread.history == old(thread.history)
    {
      assert rids[..k + 1][..k] == rids[..k];
      var removed := RoleRemovals(g, rids[k]);
      targets := targets + multiset(removed);
      thread.members := thread.members - removed;
    }
    assert rids[..|rids|] == rids;
  }

  /**
   * `ticket_convert` keeps a thread member when it is a bot, the creator, or holds
   * a configured admin role; the administrator flag alone does not keep anyone.
   * A member the guild does not know is resolved with no roles and no flags.
   */
  predicate KeptOnConvert(g: Guild, x: int, creatorId: int, rids: seq<int>) {
    match GetMember(g, x)
    case Some(m) => m.bot || x == creatorId || HasAdminRole(m, rids)
    case None => x == creatorId
  }

  /** The administrator flag plays no part in what convert keeps. */
  lemma KeptOnConvertIgnoresFlag(g: Guild, x: int, creatorId: int, rids: seq<int>)
    requires x in g.members
    ensures KeptOnConvert(g, x, creatorId, rids) ==
      KeptOnConvert(g.(members := g.members[x := g.members[x].(administrator := !g.members[x].administrator)]), x, creatorId, rids)
  {
  }

  /** The members of `ids` that convert keeps. */
  function ConvertKept(g: Guild, ids: set<int>, creatorId: int, rids: seq<int>): set<int> {
    set x | x in ids && KeptOnConvert(g, x, creatorId, rids)
  }

  lemma ConvertKeptAdd(g: Guild, ids: set<int>, x: int, creatorId: int, rids: seq<int>)
    ensures ConvertKept(g, ids + {x}, creatorId, rids) ==
      ConvertKept(g, ids, creatorId, rids) + if KeptOnConvert(g, x, creatorId, rids) then {x} else {}
  {
  }

  /** The removal loop of `ticket_convert`: every thread member that is not kept is removed. */
  method ConvertRemovals(thread: Thread, g: Guild, creatorId: int, rids: seq<int>)
    modifies thread
    ensures thread.members == ConvertKept(g, old(thread.members), creatorId, rids)
    ensures thread.name == old(thread.name) && thread.locked == old(thread.locked)
    ensures thread.archived == old(thread.archived) && thread.history == old(thread.history)
  {
    var pending := thread.members;
    var remaining := thread.members;
    ghost var seen: set<int> := {};
    while pending != {}
      invariant pending !! seen && pending + seen == old(thread.members)
      invariant remaining == pending + ConvertKept(g, seen, creatorId, rids)
      invariant unchanged(thread)
      decreases pending
    {
      var x := PickId(pending);
      ConvertKeptAdd(g, seen, x, creatorId, rids);
      if !KeptOnConvert(g, x, creatorId, rids) {
        remaining := remaining - {x};
      }
      pending := pending - {x};
      seen := seen + {x};
    }
    thread.members := remaining;
  }

  // ---- Duplicate titles ----

  /**
   * The first title, newest first, whose score (the fuzzy ratio over 100) reaches
   * the threshold, with that score.
   */
  function FirstDuplicate(titles: seq<string>, title: string, ratio: (string, string) -> real, threshold: real): Option<(string, real)>
    decreases |titles|
  {
    if titles == [] then None
    else if Score(title, titles[0], ratio) >= threshold then Some((titles[0], Score(title, titles[0], ratio)))
    else FirstDuplicate(titles[1..], title, ratio, threshold)
  }

  /** The similarity of `duplicate_check`: the matcher's ratio, scaled from a percentage. */
  function Score(title: string, other: string, ratio: (string, string) -> real): real {
    ratio(title, other) / 100.0
  }

  /** The match is the earliest title that reaches the threshold; no match means none reaches it. */
  lemma {:induction false} FirstDuplicateSpec(titles: seq<string>, title: string, ratio: (string, string) -> real, threshold: real)
    ensures FirstDuplicate(titles, title, ratio, threshold).None? <==>
      forall k :: 0 <= k < |titles| ==> Score(title, titles[k], ratio) < threshold
    ensures FirstDuplicate(titles, title, ratio, threshold).Some? ==>
      exists k :: 0 <= k < |titles| && FirstDuplicate(titles, title, ratio, threshold).value == (titles[k], Score(title, titles[k], ratio)) &&
        Score(title, titles[k], ratio) >= threshold &&
        forall j :: 0 <= j < k ==> Score(title, titles[j], ratio) < threshold
    decreases |titles|
  {
    if titles != [] {
      var rest := titles[1..];
      FirstDuplicateSpec(rest, title, ratio, threshold);
      assert forall k :: 1 <= k < |titles| ==> titles[k] == rest[k - 1];
      if Score(title, titles[0], ratio) < threshold && FirstDuplicate(rest, title, ratio, threshold).Some? {
        var k :| 0 <= k < |rest| && FirstDuplicate(rest, title, ratio, threshold).value == (rest[k], Score(title, rest[k], ratio)) &&
          Score(title, rest[k], ratio) >= threshold &&
          forall j :: 0 <= j < k ==> Score(title, rest[j], ratio) < threshold;
        assert titles[k + 1] == rest[k];
        assert forall j :: 0 <= j < k + 1 ==> Score(title, titles[j], ratio) < threshold;
      }
    }
  }

  /** `duplicate_check`: scans the recent titles and returns at the first that reaches the threshold, else `(None, 0)`. */
  method DuplicateCheck(titles: seq<string>, title: string, ratio: (string, string) -> real, threshold: real)
    returns (dup: Option<string>, score: real)
    ensures FirstDuplicate(titles, title, ratio, threshold).Some? ==>
      dup == Some(FirstDuplicate(titles, title, ratio, threshold).value.0) && score == FirstDuplicate(titles, title, ratio, threshold).value.1
    ensures FirstDuplicate(titles, title, ratio, threshold).None? ==> dup == None && score == 0.0
  {
    for k := 0 to |titles|
      invariant FirstDuplicate(titles, title, ratio, threshold) == FirstDuplicate(titles[k..], title, ratio, threshold)
    {
      assert titles[k..][1..] == titles[k + 1..];
      var s := Score(title, titles[k], ratio);
      if s >= threshold {
        return Some(titles[k]), s;
      }
    }
    return None, 0.0;
  }

  /** The duplicate note of `ticket_open`: the match and its score, unless the matching title is empty (falsy). */
  function DuplicateNote(found: Option<(string, real)>): Option<(string, real)> {
    if found.Some? && found.value.0 != "" then found else None
  }

  /** `title[:max_title_len]` with Python's slice rules, applied only when the title is longer than the limit. */
  function TruncateTitle(title: string, maxLen: int): (r: string)
    ensures |r| <= |title| && r == title[..|r|]
    ensures |title| <= maxLen ==> r == title
    ensures 0 <= maxLen ==> |r| <= maxLen
    ensures maxLen < 0 ==> |r| == if |title| + maxLen > 0 then |title| + maxLen else 0
  {
    if |title| <= maxLen then title
    else if 0 <= maxLen then title[..maxLen]
    else if |title| + maxLen > 0 then title[..|title| + maxLen]
    else []
  }

  // ---- The two waits of `ticket_close`, as the events they would see ----

  /** A message `wait_for("message")` may see: the channel it was posted in, and the message. */
  datatype ChatReply = ChatReply(channelId: int, message: Message)

  /** A reaction `wait_for("reaction_add")` may see: the message reacted to, the emoji and the reacting user. */
  datatype ReactionAdd = ReactionAdd(messageId: int, emoji: Emoji, userId: int)

  /** `check`: a message by the invoker in the ticket thread. */
  predicate IsConfirmation(m: ChatReply, authorId: int, threadId: int) {
    m.message.authorId == authorId && m.channelId == threadId
  }

  /** `replies[k]` is the first reply that passes `check`. */
  predicate FirstConfirmationAt(replies: seq<ChatReply>, k: int, authorId: int, threadId: int) {
    && 0 <= k < |replies|
    && IsConfirmation(replies[k], authorId, threadId)
    && forall j :: 0 <= j < k ==> !IsConfirmation(replies[j], authorId, threadId)
  }

  /** The reply the confirmation wait returns: the first that passes `check`; none means the wait timed out. */
  function FirstConfirmation(replies: seq<ChatReply>, authorId: int, threadId: int): (r: Option<ChatReply>)
    ensures r.None? <==> forall k :: 0 <= k < |replies| ==> !IsConfirmation(replies[k], authorId, threadId)
    ensures r.Some? ==> exists k :: FirstConfirmationAt(replies, k, authorId, threadId) && replies[k] == r.value
    decreases |replies|
  {
    if replies == [] then None
    else if IsConfirmation(replies[0], authorId, threadId) then Some(replies[0])
    else
      var rest := FirstConfirmation(replies[1..], authorId, threadId);
      assert forall k :: 1 <= k < |replies| ==> replies[k] == replies[1..][k - 1];
      if rest.Some? then
        var k :| FirstConfirmationAt(replies[1..], k, authorId, threadId) && replies[1..][k] == rest.value;
        assert FirstConfirmationAt(replies, k + 1, authorId, threadId);
        rest
      else rest
  }

  /** The messages of `replies` posted in the thread, in the order they arrived. */
  function ThreadPosts(replies: seq<ChatReply>, threadId: int): seq<Message>
  {
    if replies == [] then []
    else (if replies[0].channelId == threadId then [replies[0].message] else []) + ThreadPosts(replies[1..], threadId)
  }

  /** A message is among the thread's posts exactly when some reply in that thread carries it. */
  lemma {:induction false} ThreadPostsMembers(replies: seq<ChatReply>, threadId: int)
    ensures forall m :: m in ThreadPosts(replies, threadId) <==>
      exists k :: 0 <= k < |replies| && replies[k].channelId == threadId && replies[k].message == m
  {
    if replies != [] {
      ThreadPostsMembers(replies[1..], threadId);
      assert forall k :: 1 <= k < |replies| ==> replies[k] == replies[1..][k - 1];
      forall m | m in ThreadPosts(replies, threadId)
        ensures exists k :: 0 <= k < |replies| && replies[k].channelId == threadId && replies[k].message == m
      {
        if !(replies[0].channelId == threadId && replies[0].message == m) {
          assert m in ThreadPosts(replies[1..], threadId);
          var k :| 0 <= k < |replies[1..]| && replies[1..][k].channelId == threadId && replies[1..][k].message == m;
          assert replies[k + 1] == replies[1..][k];
        }
      }
      forall m | exists k :: 0 <= k < |replies| && replies[k].channelId == threadId && replies[k].message == m
        ensures m in ThreadPosts(replies, threadId)
      {
        var k :| 0 <= k < |replies| && replies[k].channelId == threadId && replies[k].message == m;
        if k > 0 {
          assert replies[1..][k - 1] == replies[k];
        }
      }
    }
  }

  /**
   * The messages the thread gains while the confirmation wait runs: those
   * posted in it up to and including the invoker's reply, or all of them when
   * the wait times out.
   */
  function WaitPosts(replies: seq<ChatReply>, authorId: int, threadId: int): seq<Message>
  {
    if replies == [] then []
    else if IsConfirmation(replies[0], authorId, threadId) then [replies[0].message]
    else (if replies[0].channelId == threadId then [replies[0].message] else []) + WaitPosts(replies[1..], authorId, threadId)
  }

  /** A confirmed wait adds the thread's posts up to the invoker's reply, which comes last. */
  lemma {:induction false} WaitPostsConfirmed(replies: seq<ChatReply>, authorId: int, threadId: int, k: int)
    requires FirstConfirmationAt(replies, k, authorId, threadId)
    ensures WaitPosts(replies, authorId, threadId) == ThreadPosts(replies[..k + 1], threadId)
    ensures |WaitPosts(replies, authorId, threadId)| > 0
    ensures WaitPosts(replies, authorId, threadId)[|WaitPosts(replies, authorId, threadId)| - 1] == replies[k].message
  {
    if k == 0 {
      assert replies[..1][1..] == [];
    } else {
      var rest := replies[1..];
      assert forall j :: 0 <= j < k - 1 ==> rest[j] == replies[j + 1];
      assert rest[k - 1] == replies[k];
      WaitPostsConfirmed(rest, authorId, threadId, k - 1);
      assert replies[..k + 1][1..] == rest[..k];
      assert replies[..k + 1][0] == replies[0];
    }
  }

  /** A wait that times out adds every message posted in the thread meanwhile. */
  lemma {:induction false} WaitPostsTimedOut(replies: seq<ChatReply>, authorId: int, threadId: int)
    requires FirstConfirmation(replies, authorId, threadId).None?
    ensures WaitPosts(replies, authorId, threadId) == ThreadPosts(replies, threadId)
  {
    if replies != [] {
      assert !IsConfirmation(replies[0], authorId, threadId);
      assert forall j :: 0 <= j < |replies[1..]| ==> replies[1..][j] == replies[j + 1];
      WaitPostsTimedOut(replies[1..], authorId, threadId);
    }
  }

  /** On a ticket whose thread holds only its greeting, setting in_progress reacts on the greeting. */
  lemma InProgressMarksGreeting(greeting: Message)
    ensures MarkInProgress([greeting], InProgress) == [greeting.(reactions := greeting.reactions + {Tools})]
  {
  }

  /** The prompt `ticket_close` posts in the thread before it waits for "yes". */
  const ConfirmPrompt := "Confirm close? Reply 'yes' in 15s."

  /** What a close that gets as far as its prompt adds to the thread: the prompt, then the wait's posts. */
  function PromptPosts(promptAt: Stamp, replies: seq<ChatReply>, authorId: int, threadId: int): seq<Message> {
    [Post(promptAt, ConfirmPrompt, {})] + WaitPosts(replies, authorId, threadId)
  }

  /** The text of the public close's vote message. */
  const VotePrompt := "React \U{2705} (solved) or \U{274C} (rejected) within 2m. Admin or creator reaction counts."

  /** The vote message of the public close, with the bot's reactions of both resolution emoji. */
  function VoteMessage(at: Stamp): Message {
    Post(at, VotePrompt, {CheckMark, CrossMark})
  }

  /**
   * `rcheck`: a reaction on the vote message, with one of the two resolution
   * emoji, by a guild member who is the creator or an admin.
   */
  predicate CountsAsVote(v: ReactionAdd, voteMessageId: int, g: Guild, creatorId: int, rids: seq<int>) {
    && v.messageId == voteMessageId
    && (v.emoji == CheckMark || v.emoji == CrossMark)
    && v.userId in g.members
    && (v.userId == creatorId || IsAdmin(g.members[v.userId], rids))
  }

  /** `votes[k]` is the first reaction that passes `rcheck`. */
  predicate FirstVoteAt(votes: seq<ReactionAdd>, k: int, voteMessageId: int, g: Guild, creatorId: int, rids: seq<int>) {
    && 0 <= k < |votes|
    && CountsAsVote(votes[k], voteMessageId, g, creatorId, rids)
    && forall j :: 0 <= j < k ==> !CountsAsVote(votes[j], voteMessageId, g, creatorId, rids)
  }

  /** The reaction the vote wait returns: the first that passes `rcheck`; none means the wait timed out. */
  function FirstVote(votes: seq<ReactionAdd>, voteMessageId: int, g: Guild, creatorId: int, rids: seq<int>): (r: Option<ReactionAdd>)
    ensures r.None? <==> forall k :: 0 <= k < |votes| ==> !CountsAsVote(votes[k], voteMessageId, g, creatorId, rids)
    ensures r.Some? ==> exists k :: FirstVoteAt(votes, k, voteMessageId, g, creatorId, rids) && votes[k] == r.value
    decreases |votes|
  {
    if votes == [] then None
    else if CountsAsVote(votes[0], voteMessageId, g, creatorId, rids) then Some(votes[0])
    else
      var rest := FirstVote(votes[1..], voteMessageId, g, creatorId, rids);
      assert forall k :: 1 <= k < |votes| ==> votes[k] == votes[1..][k - 1];
      if rest.Some? then
        var k :| FirstVoteAt(votes[1..], k, voteMessageId, g, creatorId, rids) && votes[1..][k] == rest.value;
        assert FirstVoteAt(votes, k + 1, voteMessageId, g, creatorId, rids);
        rest
      else rest
  }

  /** The public close's result: `RESOLUTION_EMOJIS` of the counted reaction, or `DEFAULT_TIMEOUT_STATUS`. */
  function VoteOutcome(votes: seq<ReactionAdd>, voteMessageId: int, g: Guild, creatorId: int, rids: seq<int>): (s: Status)
    ensures s == Solved || s == Rejected || s == Closed
    ensures s == Closed <==> forall k :: 0 <= k < |votes| ==> !CountsAsVote(votes[k], voteMessageId, g, creatorId, rids)
    ensures s != Closed ==>
      exists k :: FirstVoteAt(votes, k, voteMessageId, g, creatorId, rids) && (s == Solved <==> votes[k].emoji == CheckMark)
  {
    match FirstVote(votes, voteMessageId, g, creatorId, rids)
    case None => Closed
    case Some(v) => if v.emoji == CheckMark then Solved else Rejected
  }

  /** The two transcript files `build_transcript_files` makes of a thread's id, name and history. */
  function TranscriptFilesOf(id: int, name: string, history: seq<Message>): seq<TranscriptFile> {
    [TranscriptFile("transcript-" + IntToString(id) + ".txt", PlainText(history)),
     TranscriptFile("transcript-" + IntToString(id) + ".html", HtmlText(name, history))]
  }

  /** `member.mention` */
  function Mention(id: int): string {
    "<@" + IntToString(id) + ">"
  }

  /** `dup_msg`: the duplicate's title and its score as `fixed2` renders it (`:.2f`), or nothing. */
  function DuplicateText(note: Option<(string, real)>, fixed2: real -> string): string {
    if note.Some? then " (Possible duplicate of '" + note.value.0 + "' score " + fixed2(note.value.1) + ")" else ""
  }

  /** The greeting `ticket_open` posts in a new thread. */
  function Greeting(isPrivate: bool, authorId: int, note: Option<(string, real)>, fixed2: real -> string): string {
    (if isPrivate then "Hello " + Mention(authorId) + ", please describe your issue."
     else "Thread created by " + Mention(authorId) + ".") + DuplicateText(note, fixed2)
  }

  /** Python truthiness of a nullable integer column: present and non-zero. */
  predicate Truthy(v: Option<int>) {
    v.Some? && v.value != 0
  }

  /** The replies of the ticket commands. */
  datatype Reply =
    | NotInThread | NotManaged | NoPermission | StaffOnly
    | Blacklisted | ProvideTitle | WrongChannel(truncated: bool)
    | Opened(threadId: int, isPrivate: bool, truncated: bool, duplicate: Option<(string, real)>)
    | TimedOut | Cancelled | ClosedPrivate
    | Resolved(status: Status)  // the public close posts no reply; its outcome is the status written
    | PrivateNotReopenable | AlreadyOpen | Reopened
    | AlreadyClaimed(claimedBy: int) | Claimed | NotClaimed | NotOwnClaim | Unclaimed
    | PrivateOnly | Added(memberId: int) | AddFailed | CannotRemoveCreator | Removed(memberId: int) | RemoveFailed
    | InvalidStatus | StatusSet(status: Status)
    | AlreadyPrivate | AlreadyMarkedPrivate | Converted
    | NoEscalationRole | Escalated(roleId: int)
    | NoOpenTickets | OpenTickets(entries: seq<(int, Status)>)

  /** The most tickets `ticket_listmine` lists. */
  const ListLimit := 10

  /**
   * The ticket cog: the store and the metrics it writes. Each handler takes
   * the invoking member, the guild, the thread it was run in (`null` outside a
   * thread), the configuration and the current time.
   */
  class TicketCog {
    const db: Database
    const metrics: Metrics

    ghost predicate Valid()
      reads db
    {
      db.Valid()
    }

    constructor (db: Database, metrics: Metrics)
      requires db.Valid()
      ensures this.db == db && this.metrics == metrics
      ensures Valid()
    {
      this.db := db;
      this.metrics := metrics;
    }

    /** `ensure_ticket_record`: inserts a row and counts `tickets_created` only when the thread has none. */
    method EnsureTicketRecord(thread: Thread, guildId: int, creatorId: int, isPrivate: bool, title: string, now: int)
      requires Valid()
      modifies db, metrics
      ensures Valid()
      ensures db.blacklist == old(db.blacklist)
      ensures HasThread(old(db.tickets), thread.id) ==>
        db.tickets == old(db.tickets) && metrics.counters == old(metrics.counters)
      ensures !HasThread(old(db.tickets), thread.id) ==>
        && db.tickets == old(db.tickets) + [NewTicket(old(db.nextId), guildId, thread.id, creatorId, isPrivate, title, now)]
        && metrics.counters == Bumped(old(metrics.counters), "tickets_created", 1)
    {
      var row := GetTicketByThread(db.tickets, thread.id);
      if row.None? {
        var inserted := db.CreateTicket(guildId, thread.id, creatorId, isPrivate, title, now);
        metrics.Incr("tickets_created", 1);
      }
    }

    /**
     * The success path of `ticket_open`: the new thread under the invoking
     * channel, the author added when private, the admins added, the greeting
     * posted at `greetAt`, the row ensured.
     */
    method OpenThread(author: Member, guild: Guild, channelId: int, name: string, isPrivate: bool,
                      cfg: RuntimeConfig, newThreadId: int, greetAt: Stamp, greeting: string, now: int)
      returns (thread: Thread)
      requires Valid()
      modifies db, metrics
      ensures Valid()
      ensures db.blacklist == old(db.blacklist)
      ensures fresh(thread) && thread.id == newThreadId && thread.parentId == channelId && thread.isPrivate == isPrivate
      ensures thread.name == name && !thread.locked && !thread.archived
      ensures thread.history == [Post(greetAt, greeting, {})]
      ensures thread.members == (if isPrivate then {author.id} else {}) + AdminMemberIds(guild, cfg.adminRoleIds)
      ensures HasThread(old(db.tickets), newThreadId) ==>
        db.tickets == old(db.tickets) && metrics.counters == old(metrics.counters)
      ensures !HasThread(old(db.tickets), newThreadId) ==>
        && db.tickets == old(db.tickets) + [NewTicket(old(db.nextId), guild.id, newThreadId, author.id, isPrivate, name, now)]
        && metrics.counters == Bumped(old(metrics.counters), "tickets_created", 1)
    {
      thread := new Thread(newThreadId, channelId, isPrivate, name);
      if isPrivate {
        thread.members := thread.members + {author.id};
      }
      AddAdmins(thread, guild, cfg.adminRoleIds);
      thread.history := thread.history + [Post(greetAt, greeting, {})];
      EnsureTicketRecord(thread, guild.id, author.id, isPrivate, name, now);
    }

    /**
     * `ticket_open`: refuses a blacklisted author, then a blank title; truncates
     * the title; refuses any channel but the support (private) and public ones;
     * then opens the thread with a duplicate note from the recent titles.
     */
    method TicketOpen(author: Member, guild: Guild, channelId: int, title: string, cfg: RuntimeConfig,
                      newThreadId: int, ratio: (string, string) -> real, greetAt: Stamp, fixed2: real -> string, now: int)
      returns (r: Reply, thread: Thread?)
      requires Valid()
      modifies db, metrics
      ensures Valid()
      ensures db.blacklist == old(db.blacklist)
      ensures r.Blacklisted? || r.ProvideTitle? || r.WrongChannel? || r.Opened?
      ensures r.Blacklisted? <==> IsBlacklisted(old(db.blacklist), guild.id, author.id)
      ensures r.ProvideTitle? <==> !IsBlacklisted(old(db.blacklist), guild.id, author.id) && Strip(title) == []
      ensures r.WrongChannel? <==>
        !IsBlacklisted(old(db.blacklist), guild.id, author.id) && Strip(title) != [] &&
        channelId != cfg.supportChannelId && channelId != cfg.publicChannelId
      ensures r.WrongChannel? ==> r.truncated == (|title| > cfg.maxTitleLen)
      ensures !r.Opened? ==> thread == null && db.tickets == old(db.tickets) && metrics.counters == old(metrics.counters)
      ensures r.Opened? ==>
        && thread != null && fresh(thread)
        && r.threadId == thread.id == newThreadId && thread.parentId == channelId
        && r.isPrivate == thread.isPrivate == (channelId == cfg.supportChannelId)
        && (!r.isPrivate ==> IsPublic(thread, cfg))
        && r.truncated == (|title| > cfg.maxTitleLen)
        && thread.name == TruncateTitle(title, cfg.maxTitleLen)
        && !thread.locked && !thread.archived
        && thread.history == [Post(greetAt, Greeting(r.isPrivate, author.id, r.duplicate, fixed2), {})]
        && thread.members == (if r.isPrivate then {author.id} else {}) + AdminMemberIds(guild, cfg.adminRoleIds)
        && r.duplicate == DuplicateNote(FirstDuplicate(RecentTitles(old(db.tickets), guild.id), thread.name, ratio, cfg.duplicateSimilarity))
      ensures r.Opened? && HasThread(old(db.tickets), newThreadId) ==>
        db.tickets == old(db.tickets) && metrics.counters == old(metrics.counters)
      ensures r.Opened? && !HasThread(old(db.tickets), newThreadId) ==>
        && db.tickets == old(db.tickets) + [NewTicket(old(db.nextId), guild.id, newThreadId, author.id, r.isPrivate, TruncateTitle(title, cfg.maxTitleLen), now)]
        && metrics.counters == Bumped(old(metrics.counters), "tickets_created", 1)
    {
      if IsBlacklisted(db.blacklist, guild.id, author.id) {
        return Blacklisted, null;
      }
      if Strip(title) == [] {
        return ProvideTitle, null;
      }
      if channelId != cfg.supportChannelId && channelId != cfg.publicChannelId {
        return WrongChannel(|title| > cfg.maxTitleLen), null;
      }
      r, thread := OpenChecked(author, guild, channelId, title, cfg, newThreadId, ratio, greetAt, fixed2, now);
    }

    /** `ticket_open` once its checks pass: the duplicate note from the recent titles, then the new thread and its greeting. */
    method OpenChecked(author: Member, guild: Guild, channelId: int, title: string, cfg: RuntimeConfig,
                       newThreadId: int, ratio: (string, string) -> real, greetAt: Stamp, fixed2: real -> string, now: int)
      returns (r: Reply, thread: Thread)
      requires Valid()
      modifies db, metrics
      ensures Valid()
      ensures db.blacklist == old(db.blacklist)
      ensures fresh(thread)
      ensures r == Opened(newThreadId, channelId == cfg.supportChannelId, |title| > cfg.maxTitleLen,
                          DuplicateNote(FirstDuplicate(RecentTitles(old(db.tickets), guild.id), TruncateTitle(title, cfg.maxTitleLen), ratio, cfg.duplicateSimilarity)))
      ensures thread.id == newThreadId && thread.parentId == channelId && thread.isPrivate == (channelId == cfg.supportChannelId)
      ensures thread.name == TruncateTitle(title, cfg.maxTitleLen)
      ensures !thread.locked && !thread.archived
      ensures thread.history == [Post(greetAt, Greeting(channelId == cfg.supportChannelId, author.id, r.duplicate, fixed2), {})]
      ensures thread.members == (if channelId == cfg.supportChannelId then {author.id} else {}) + AdminMemberIds(guild, cfg.adminRoleIds)
      ensures HasThread(old(db.tickets), newThreadId) ==>
        db.tickets == old(db.tickets) && metrics.counters == old(metrics.counters)
      ensures !HasThread(old(db.tickets), newThreadId) ==>
        && db.tickets == old(db.tickets) + [NewTicket(old(db.nextId), guild.id, newThreadId, author.id, channelId == cfg.supportChannelId, TruncateTitle(title, cfg.maxTitleLen), now)]
        && metrics.counters == Bumped(old(metrics.counters), "tickets_created", 1)
    {
      var name := TruncateTitle(title, cfg.maxTitleLen);
      var isPrivate := channelId == cfg.supportChannelId;
      var dup, score := DuplicateCheck(RecentTitles(db.tickets, guild.id), name, ratio, cfg.duplicateSimilarity);
      var note := if dup.Some? && dup.value != "" then Some((dup.value, score)) else None;
      thread := OpenThread(author, guild, channelId, name, isPrivate, cfg, newThreadId,
                           greetAt, Greeting(isPrivate, author.id, note, fixed2), now);
      r := Opened(thread.id, isPrivate, |title| > cfg.maxTitleLen, note);
    }

    /** The transcript upload of a close: both files, when the log channel exists. */
    method LogTranscripts(thread: Thread, guild: Guild, cfg: RuntimeConfig) returns (logged: seq<TranscriptFile>)
      ensures logged == if cfg.logChannelId in guild.channelIds then TranscriptFilesOf(thread.id, thread.name, thread.history) else []
    {
      var files := BuildTranscriptFiles(thread);
      logged := if cfg.logChannelId in guild.channelIds then files else [];
    }

    /** The confirmed private close: admins and the creator leave, the thread is locked and archived, the row closed. */
    method ClosePrivate(thread: Thread, guild: Guild, cfg: RuntimeConfig, creatorId: int, now: int)
      requires Valid()
      modifies db, thread
      ensures Valid()
      ensures db.tickets == UpdateWhere(old(db.tickets), thread.id, CloseAs(Closed, now))
      ensures db.blacklist == old(db.blacklist)
      ensures thread.members == old(thread.members) - RemovalIds(guild, cfg.adminRoleIds) - (if creatorId in guild.members then {creatorId} else {})
      ensures thread.locked && thread.archived
      ensures thread.name == old(thread.name) && thread.history == old(thread.history)
    {
      var targets := RemoveAdmins(thread, guild, cfg.adminRoleIds);
      if GetMember(guild, creatorId).Some? {
        thread.members := thread.members - {creatorId};
      }
      thread.locked, thread.archived := true, true;
      db.CloseTicket(thread.id, Closed, now);
    }

    /**
     * The confirmed public close: admins leave, the thread is locked and
     * archived, the vote message is posted at `voteAt`, and the thread is
     * renamed (`name`, normalized to the outcome) and the row closed.
     */
    method ClosePublic(thread: Thread, guild: Guild, cfg: RuntimeConfig, outcome: Status, name: string, voteAt: Stamp, now: int)
      requires Valid()
      modifies db, thread
      ensures Valid()
      ensures db.tickets == UpdateWhere(old(db.tickets), thread.id, CloseAs(outcome, now))
      ensures db.blacklist == old(db.blacklist)
      ensures thread.members == old(thread.members) - RemovalIds(guild, cfg.adminRoleIds)
      ensures thread.locked && thread.archived
      ensures thread.name == name
      ensures thread.history == old(thread.history) + [VoteMessage(voteAt)]
    {
      var targets := RemoveAdmins(thread, guild, cfg.adminRoleIds);
      thread.locked, thread.archived := true, true;
      thread.history := thread.history + [VoteMessage(voteAt)];
      // the vote runs here; its outcome is the parameter
      thread.archived, thread.locked := false, false;
      thread.name := name;
      thread.archived, thread.locked := true, true;
      db.CloseTicket(thread.id, outcome, now);
    }

    /** A confirmed close of the thread whose row is `row`. */
    method CloseConfirmed(thread: Thread, guild: Guild, cfg: RuntimeConfig, row: Ticket,
                          voteAt: Stamp, voteMessageId: int, votes: seq<ReactionAdd>, now: int)
      returns (r: Reply, logged: seq<TranscriptFile>)
      requires Valid()
      modifies db, thread
      ensures Valid()
      ensures db.blacklist == old(db.blacklist)
      ensures var outcome := if row.isPrivate then Closed else VoteOutcome(votes, voteMessageId, guild, row.creatorId, cfg.adminRoleIds);
        && r == (if row.isPrivate then ClosedPrivate else Resolved(outcome))
        && db.tickets == UpdateWhere(old(db.tickets), thread.id, CloseAs(outcome, now))
        && thread.locked && thread.archived
        && thread.history == old(thread.history) + (if row.isPrivate then [] else [VoteMessage(voteAt)])
        && thread.name == (if row.isPrivate then old(thread.name) else NormalizeName(old(thread.name), StatusKey(outcome)))
        && thread.members == old(thread.members) - RemovalIds(guild, cfg.adminRoleIds)
                             - (if row.isPrivate && row.creatorId in guild.members then {row.creatorId} else {})
        && logged == if cfg.logChannelId in guild.channelIds then TranscriptFilesOf(thread.id, thread.name, thread.history) else []
    {
      if row.isPrivate {
        ClosePrivate(thread, guild, cfg, row.creatorId, now);
        r := ClosedPrivate;
      } else {
        var outcome := VoteOutcome(votes, voteMessageId, guild, row.creatorId, cfg.adminRoleIds);
        ClosePublic(thread, guild, cfg, outcome, NormalizeName(thread.name, StatusKey(outcome)), voteAt, now);
        r := Resolved(outcome);
      }
      logged := LogTranscripts(thread, guild, cfg);
    }

    /**
     * `ticket_close`: refuses outside a thread, without a row, or without the
     * right to manage it; waits for the invoker's "yes"; then closes a private
     * row as closed, or a public one as the vote decides, and uploads the
     * transcripts when the log channel exists.
     */
    method TicketClose(author: Member, guild: Guild, thread: Thread?, cfg: RuntimeConfig,
                       promptAt: Stamp, replies: seq<ChatReply>,
                       voteAt: Stamp, voteMessageId: int, votes: seq<ReactionAdd>, now: int)
      returns (r: Reply, logged: seq<TranscriptFile>)
      requires Valid()
      modifies db, thread
      ensures Valid()
      ensures db.blacklist == old(db.blacklist)
      ensures thread == null ==> r == NotInThread && db.tickets == old(db.tickets) && logged == []
      ensures thread != null ==>
        var refusal := CloseRefusal(GetTicketByThread(old(db.tickets), thread.id), author, cfg.adminRoleIds,
                                    FirstConfirmation(replies, author.id, thread.id));
        refusal.Some? ==>
          && r == refusal.value && db.tickets == old(db.tickets) && logged == []
          && thread.name == old(thread.name) && thread.members == old(thread.members)
          && thread.locked == old(thread.locked) && thread.archived == old(thread.archived)
          && thread.history == old(thread.history) +
               (if r == NotManaged || r == NoPermission then [] else PromptPosts(promptAt, replies, author.id, thread.id))
      ensures thread != null && CloseRefusal(GetTicketByThread(old(db.tickets), thread.id), author, cfg.adminRoleIds,
                                             FirstConfirmation(replies, author.id, thread.id)).None? ==>
        && var row := GetTicketByThread(old(db.tickets), thread.id).value;
        && var outcome := if row.isPrivate then Closed else VoteOutcome(votes, voteMessageId, guild, row.creatorId, cfg.adminRoleIds);
        && r == (if row.isPrivate then ClosedPrivate else Resolved(outcome))
        && db.tickets == UpdateWhere(old(db.tickets), thread.id, CloseAs(outcome, now))
        && thread.locked && thread.archived
        && thread.history == old(thread.history) + PromptPosts(promptAt, replies, author.id, thread.id)
                             + (if row.isPrivate then [] else [VoteMessage(voteAt)])
        && thread.name == (if row.isPrivate then old(thread.name) else NormalizeName(old(thread.name), StatusKey(outcome)))
        && thread.members == old(thread.members) - RemovalIds(guild, cfg.adminRoleIds)
                             - (if row.isPrivate && row.creatorId in guild.members then {row.creatorId} else {})
        && logged == if cfg.logChannelId in guild.channelIds then TranscriptFilesOf(thread.id, thread.name, thread.history) else []
    {
      if thread == null {
        return NotInThread, [];
      }
      var row := GetTicketByThread(db.tickets, thread.id);
      var refusal := CloseRefusal(row, author, cfg.adminRoleIds, FirstConfirmation(replies, author.id, thread.id));
      if refusal == Some(NotManaged) || refusal == Some(NoPermission) {
        return refusal.value, [];
      }
      thread.history := thread.history + PromptPosts(promptAt, replies, author.id, thread.id);
      if refusal.Some? {
        return refusal.value, [];
      }
      r, logged := CloseConfirmed(thread, guild, cfg, row.value, voteAt, voteMessageId, votes, now);
    }

    /** `ticket_reopen`: after its refusals, unlocks and unarchives, drops the name prefix, re-adds the admins and sets status open. */
    method TicketReopen(author: Member, guild: Guild, thread: Thread?, cfg: RuntimeConfig, now: int) returns (r: Reply)
      requires Valid()
      modifies db, thread
      ensures Valid()
      ensures db.blacklist == old(db.blacklist)
      ensures thread == null ==> r == NotInThread && db.tickets == old(db.tickets)
      ensures thread != null ==>
        var refusal := ReopenRefusal(GetTicketByThread(old(db.tickets), thread.id), author, cfg.adminRoleIds);
        && (refusal.Some? ==> r == refusal.value && db.tickets == old(db.tickets) && unchanged(thread))
        && (refusal.None? ==>
              && r == Reopened
              && db.tickets == UpdateWhere(old(db.tickets), thread.id, NewStatus(Open, now))
              && !thread.locked && !thread.archived
              && thread.name == NormalizeName(old(thread.name), "open")
              && thread.members == old(thread.members) + AdminMemberIds(guild, cfg.adminRoleIds)
              && thread.history == old(thread.history))
    {
      if thread == null {
        return NotInThread;
      }
      var refusal := ReopenRefusal(GetTicketByThread(db.tickets, thread.id), author, cfg.adminRoleIds);
      if refusal.Some? {
        return refusal.value;
      }
      ReopenThread(thread, guild, cfg.adminRoleIds, NormalizeName(thread.name, "open"), now);
      r := Reopened;
    }

    /** The effects of `ticket_reopen` once its checks pass; `name` is the thread's normalized name. */
    method ReopenThread(thread: Thread, guild: Guild, rids: seq<int>, name: string, now: int)
      requires Valid()
      modifies db, thread
      ensures Valid()
      ensures db.blacklist == old(db.blacklist)
      ensures db.tickets == UpdateWhere(old(db.tickets), thread.id, NewStatus(Open, now))
      ensures !thread.locked && !thread.archived
      ensures thread.name == name
      ensures thread.members == old(thread.members) + AdminMemberIds(guild, rids)
      ensures thread.history == old(thread.history)
    {
      db.UpdateStatus(thread.id, Open, now);
      thread.archived, thread.locked := false, false;
      thread.name := name;
      AddAdmins(thread, guild, rids);
    }

    /**
     * `ticket_claim`: staff only; refuses when the row's `last_user_message_at`
     * (the column the guard reads) is truthy, otherwise claims for the author.
     */
    method TicketClaim(author: Member, thread: Thread?, cfg: RuntimeConfig, now: int) returns (r: Reply)
      requires Valid()
      modifies db
      ensures Valid()
      ensures db.blacklist == old(db.blacklist)
      ensures thread == null ==> r == NotInThread && db.tickets == old(db.tickets)
      ensures thread != null ==>
        var row := GetTicketByThread(old(db.tickets), thread.id);
        var refusal := StaffRefusal(author, cfg.adminRoleIds, row);
        && (refusal.Some? ==> r == refusal.value && db.tickets == old(db.tickets))
        && (refusal.None? && Truthy(row.value.lastUserMessageAt) ==>
              r == AlreadyClaimed(row.value.lastUserMessageAt.value) && db.tickets == old(db.tickets))
        && (refusal.None? && !Truthy(row.value.lastUserMessageAt) ==>
              r == Claimed && db.tickets == UpdateWhere(old(db.tickets), thread.id, NewClaim(Some(author.id), now)))
    {
      if thread == null {
        return NotInThread;
      }
      var row := GetTicketByThread(db.tickets, thread.id);
      var refusal := StaffRefusal(author, cfg.adminRoleIds, row);
      if refusal.Some? {
        return refusal.value;
      }
      if Truthy(row.value.lastUserMessageAt) {
        return AlreadyClaimed(row.value.lastUserMessageAt.value);
      }
      db.SetClaim(thread.id, Some(author.id), now);
      r := Claimed;
    }

    /**
     * `ticket_unclaim`: staff only; refuses when `last_user_message_at` is falsy,
     * or differs from the author's id and the author lacks the administrator
     * flag; otherwise clears `claimed_by`.
     */
    method TicketUnclaim(author: Member, thread: Thread?, cfg: RuntimeConfig, now: int) returns (r: Reply)
      requires Valid()
      modifies db
      ensures Valid()
      ensures db.blacklist == old(db.blacklist)
      ensures thread == null ==> r == NotInThread && db.tickets == old(db.tickets)
      ensures thread != null ==>
        var row := GetTicketByThread(old(db.tickets), thread.id);
        var refusal := StaffRefusal(author, cfg.adminRoleIds, row);
        && (refusal.Some? ==> r == refusal.value && db.tickets == old(db.tickets))
        && (refusal.None? && !Truthy(row.value.lastUserMessageAt) ==> r == NotClaimed && db.tickets == old(db.tickets))
        && (refusal.None? && Truthy(row.value.lastUserMessageAt) ==>
              if row.value.lastUserMessageAt.value != author.id && !author.administrator
              then r == NotOwnClaim && db.tickets == old(db.tickets)
              else r == Unclaimed && db.tickets == UpdateWhere(old(db.tickets), thread.id, NewClaim(None, now)))
    {
      if thread == null {
        return NotInThread;
      }
      var row := GetTicketByThread(db.tickets, thread.id);
      var refusal := StaffRefusal(author, cfg.adminRoleIds, row);
      if refusal.Some? {
        return refusal.value;
      }
      if !Truthy(row.value.lastUserMessageAt) {
        return NotClaimed;
      }
      if row.value.lastUserMessageAt.value != author.id && !author.administrator {
        return NotOwnClaim;
      }
      db.SetClaim(thread.id, None, now);
      r := Unclaimed;
    }

    /** `ticket_adduser`: staff only, private rows only; `platformError` is a failed `add_user`. */
    method TicketAddUser(author: Member, thread: Thread?, cfg: RuntimeConfig, member: Member, platformError: bool)
      returns (r: Reply)
      modifies thread
      ensures thread == null ==> r == NotInThread
      ensures thread != null ==>
        var row := GetTicketByThread(db.tickets, thread.id);
        var refusal := StaffRefusal(author, cfg.adminRoleIds, row);
        && (refusal.Some? ==> r == refusal.value && unchanged(thread))
        && (refusal.None? && !row.value.isPrivate ==> r == PrivateOnly && unchanged(thread))
        && (refusal.None? && row.value.isPrivate && platformError ==> r == AddFailed && unchanged(thread))
        && (refusal.None? && row.value.isPrivate && !platformError ==>
              && r == Added(member.id)
              && thread.members == old(thread.members) + {member.id}
              && thread.name == old(thread.name) && thread.locked == old(thread.locked)
              && thread.archived == old(thread.archived) && thread.history == old(thread.history))
    {
      if thread == null {
        return NotInThread;
      }
      var row := GetTicketByThread(db.tickets, thread.id);
      var refusal := StaffRefusal(author, cfg.adminRoleIds, row);
      if refusal.Some? {
        return refusal.value;
      }
      if !row.value.isPrivate {
        return PrivateOnly;
      }
      if platformError {
        return AddFailed;
      }
      thread.members := thread.members + {member.id};
      r := Added(member.id);
    }

    /** `ticket_removeuser`: staff only, private rows only, never the creator; `platformError` is a failed `remove_user`. */
    method TicketRemoveUser(author: Member, thread: Thread?, cfg: RuntimeConfig, member: Member, platformError: bool)
      returns (r: Reply)
      modifies thread
      ensures thread == null ==> r == NotInThread
      ensures thread != null ==>
        var row := GetTicketByThread(db.tickets, thread.id);
        var refusal := StaffRefusal(author, cfg.adminRoleIds, row);
        && (refusal.Some? ==> r == refusal.value && unchanged(thread))
        && (refusal.None? && !row.value.isPrivate ==> r == PrivateOnly && unchanged(thread))
        && (refusal.None? && row.value.isPrivate && member.id == row.value.creatorId ==>
              r == CannotRemoveCreator && unchanged(thread))
        && (refusal.None? && row.value.isPrivate && member.id != row.value.creatorId && platformError ==>
              r == RemoveFailed && unchanged(thread))
        && (refusal.None? && row.value.isPrivate && member.id != row.value.creatorId && !platformError ==>
              && r == Removed(member.id)
              && thread.members == old(thread.members) - {member.id}
              && thread.name == old(thread.name) && thread.locked == old(thread.locked)
              && thread.archived == old(thread.archived) && thread.history == old(thread.history))
    {
      if thread == null {
        return NotInThread;
      }
      var row := GetTicketByThread(db.tickets, thread.id);
      var refusal := StaffRefusal(author, cfg.adminRoleIds, row);
      if refusal.Some? {
        return refusal.value;
      }
      if !row.value.isPrivate {
        return PrivateOnly;
      }
      if member.id == row.value.creatorId {
        return CannotRemoveCreator;
      }
      if platformError {
        return RemoveFailed;
      }
      thread.members := thread.members - {member.id};
      r := Removed(member.id);
    }

    /**
     * `ticket_status`: staff only; the lowercased argument must be a status key;
     * then renames the thread to that status, writes it, and for in_progress
     * reacts on the oldest message.
     */
    method TicketStatus(author: Member, thread: Thread?, cfg: RuntimeConfig, status: string, now: int) returns (r: Reply)
      requires Valid()
      modifies db, thread
      ensures Valid()
      ensures db.blacklist == old(db.blacklist)
      ensures thread == null ==> r == NotInThread && db.tickets == old(db.tickets)
      ensures thread != null ==>
        var refusal := StatusRefusal(author, cfg.adminRoleIds, Lower(status), GetTicketByThread(old(db.tickets), thread.id));
        && (refusal.Some? ==> r == refusal.value && db.tickets == old(db.tickets) && unchanged(thread))
        && (refusal.None? ==>
              var s := StatusOfKey(Lower(status)).value;
              && r == StatusSet(s)
              && db.tickets == UpdateWhere(old(db.tickets), thread.id, NewStatus(s, now))
              && thread.name == NormalizeName(old(thread.name), StatusKey(s))
              && thread.history == MarkInProgress(old(thread.history), s)
              && thread.members == old(thread.members)
              && thread.locked == old(thread.locked) && thread.archived == old(thread.archived))
    {
      if thread == null {
        return NotInThread;
      }
      var key := Lower(status);
      var refusal := StatusRefusal(author, cfg.adminRoleIds, key, GetTicketByThread(db.tickets, thread.id));
      if refusal.Some? {
        return refusal.value;
      }
      var s := StatusOfKey(key).value;
      SetStatus(thread, s, NormalizeName(thread.name, key), now);
      r := StatusSet(s);
    }

    /** The effects of `ticket_status` once its checks pass; `name` is the thread's normalized name. */
    method SetStatus(thread: Thread, s: Status, name: string, now: int)
      requires Valid()
      modifies db, thread
      ensures Valid()
      ensures db.blacklist == old(db.blacklist)
      ensures db.tickets == UpdateWhere(old(db.tickets), thread.id, NewStatus(s, now))
      ensures thread.name == name
      ensures thread.history == MarkInProgress(old(thread.history), s)
      ensures thread.members == old(thread.members)
      ensures thread.locked == old(thread.locked) && thread.archived == old(thread.archived)
    {
      db.UpdateStatus(thread.id, s, now);
      thread.name := name;
      thread.history := MarkInProgress(thread.history, s);
    }

    /**
     * `ticket_convert`: staff only; refuses a private thread, a missing row and a
     * row already private; sets the row's flag and removes every member that
     * convert does not keep. The thread's own type stays as it was.
     */
    method TicketConvert(author: Member, guild: Guild, thread: Thread?, cfg: RuntimeConfig) returns (r: Reply)
      requires Valid()
      modifies db, thread
      ensures Valid()
      ensures db.blacklist == old(db.blacklist)
      ensures thread == null ==> r == NotInThread && db.tickets == old(db.tickets)
      ensures thread != null ==>
        var row := GetTicketByThread(old(db.tickets), thread.id);
        var refusal := ConvertRefusal(author, cfg.adminRoleIds, thread.isPrivate, row);
        && (refusal.Some? ==> r == refusal.value && db.tickets == old(db.tickets) && unchanged(thread))
        && (refusal.None? ==>
              && r == Converted
              && db.tickets == UpdateWhere(old(db.tickets), thread.id, Privatize)
              && thread.members == ConvertKept(guild, old(thread.members), row.value.creatorId, cfg.adminRoleIds)
              && thread.name == old(thread.name) && thread.locked == old(thread.locked)
              && thread.archived == old(thread.archived) && thread.history == old(thread.history))
    {
      if thread == null {
        return NotInThread;
      }
      var row := GetTicketByThread(db.tickets, thread.id);
      var refusal := ConvertRefusal(author, cfg.adminRoleIds, thread.isPrivate, row);
      if refusal.Some? {
        return refusal.value;
      }
      db.MarkPrivate(thread.id);
      ConvertRemovals(thread, guild, row.value.creatorId, cfg.adminRoleIds);
      r := Converted;
    }

    /** `ticket_escalate`: needs a row, a configured escalation role the guild has, and the right to manage the ticket. */
    method TicketEscalate(author: Member, guild: Guild, thread: Thread?, cfg: RuntimeConfig) returns (r: Reply)
      ensures thread == null ==> r == NotInThread
      ensures thread != null ==>
        var row := GetTicketByThread(db.tickets, thread.id);
        var role := EscalateRole(cfg.escalationRoleId, guild);
        && (row.None? ==> r == NotManaged)
        && (row.Some? && role.None? ==> r == NoEscalationRole)
        && (row.Some? && role.Some? && !CanManageTicket(author, cfg.adminRoleIds, row.value.creatorId) ==> r == NoPermission)
        && (row.Some? && role.Some? && CanManageTicket(author, cfg.adminRoleIds, row.value.creatorId) ==> r == Escalated(role.value))
    {
      if thread == null {
        return NotInThread;
      }
      var row := GetTicketByThread(db.tickets, thread.id);
      if row.None? {
        return NotManaged;
      }
      var role := EscalateRole(cfg.escalationRoleId, guild);
      if role.None? {
        return NoEscalationRole;
      }
      if !CanManageTicket(author, cfg.adminRoleIds, row.value.creatorId) {
        return NoPermission;
      }
      r := Escalated(role.value);
    }

    /** `ticket_listmine`: the author's first ten open or in-progress tickets in the guild, as (thread id, status). */
    method TicketListMine(author: Member, guild: Guild) returns (r: Reply)
      ensures var mine := ListOpenTicketsByUser(db.tickets, guild.id, author.id);
        && (r == NoOpenTickets <==> mine == [])
        && (mine != [] ==>
              && r.OpenTickets?
              && |r.entries| == (if |mine| < ListLimit then |mine| else ListLimit)
              && forall i :: 0 <= i < |r.entries| ==> r.entries[i] == (mine[i].threadId, mine[i].status))
    {
      var mine := ListOpenTicketsByUser(db.tickets, guild.id, author.id);
      if mine == [] {
        return NoOpenTickets;
      }
      var n := if |mine| < ListLimit then |mine| else ListLimit;
      var lines: seq<(int, Status)> := [];
      for i := 0 to n
        invariant |lines| == i
        invariant forall k :: 0 <= k < i ==> lines[k] == (mine[k].threadId, mine[k].status)
      {
        lines := lines + [(mine[i].threadId, mine[i].status)];
      }
      r := OpenTickets(lines);
    }

    /** `on_message`: a message by a non-bot author in a thread stamps that thread's row. */
    method OnMessage(author: Member, channel: Thread?, now: int)
      requires Valid()
      modifies db
      ensures Valid()
      ensures db.blacklist == old(db.blacklist)
      ensures author.bot || channel == null ==> db.tickets == old(db.tickets)
      ensures !author.bot && channel != null ==> db.tickets == UpdateWhere(old(db.tickets), channel.id, UserMessageAt(now))
    {
      if author.bot {
        return;
      }
      if channel != null {
        db.UpdateLastUserMessage(channel.id, now);
      }
    }
  }

  /** The guards shared by the staff commands, in order: not an admin, then no row. */
  function StaffRefusal(author: Member, rids: seq<int>, row: Option<Ticket>): (r: Option<Reply>)
    ensures r.None? <==> IsAdmin(author, rids) && row.Some?
    ensures r == Some(StaffOnly) <==> !IsAdmin(author, rids)
  {
    if !IsAdmin(author, rids) then Some(StaffOnly)
    else if row.None? then Some(NotManaged)
    else None
  }

  /** The refusals of `ticket_status`, in order: not an admin, a key that names no status, no row. */
  function StatusRefusal(author: Member, rids: seq<int>, key: string, row: Option<Ticket>): (r: Option<Reply>)
    ensures r.None? <==> IsAdmin(author, rids) && StatusOfKey(key).Some? && row.Some?
    ensures r == Some(StaffOnly) <==> !IsAdmin(author, rids)
    ensures r == Some(InvalidStatus) <==> IsAdmin(author, rids) && StatusOfKey(key).None?
  {
    if !IsAdmin(author, rids) then Some(StaffOnly)
    else if StatusOfKey(key).None? then Some(InvalidStatus)
    else if row.None? then Some(NotManaged)
    else None
  }

  /** The refusals of `ticket_reopen`, in order: no row, a private row, no right to manage it, a row still open. */
  function ReopenRefusal(row: Option<Ticket>, author: Member, rids: seq<int>): (r: Option<Reply>)
    ensures r.None? <==>
      row.Some? && !row.value.isPrivate && CanManageTicket(author, rids, row.value.creatorId) && !IsActive(row.value.status)
    ensures row.Some? && row.value.isPrivate ==> r == Some(PrivateNotReopenable)
  {
    if row.None? then Some(NotManaged)
    else if row.value.isPrivate then Some(PrivateNotReopenable)
    else if !CanManageTicket(author, rids, row.value.creatorId) then Some(NoPermission)
    else if IsActive(row.value.status) then Some(AlreadyOpen)
    else None
  }

  /** The refusals of `ticket_convert`, in order: not an admin, a private thread, no row, a row already private. */
  function ConvertRefusal(author: Member, rids: seq<int>, threadIsPrivate: bool, row: Option<Ticket>): (r: Option<Reply>)
    ensures r.None? <==> IsAdmin(author, rids) && !threadIsPrivate && row.Some? && !row.value.isPrivate
    ensures row.Some? && row.value.isPrivate ==> r.Some?
  {
    if !IsAdmin(author, rids) then Some(StaffOnly)
    else if threadIsPrivate then Some(AlreadyPrivate)
    else if row.None? then Some(NotManaged)
    else if row.value.isPrivate then Some(AlreadyMarkedPrivate)
    else None
  }

  /** `ticket_status`'s reaction: for in_progress, the oldest message gains the tools emoji. */
  function MarkInProgress(history: seq<Message>, s: Status): (r: seq<Message>)
    ensures |r| == |history|
    ensures forall i :: 1 <= i < |history| ==> r[i] == history[i]
    ensures |history| > 0 ==> r[0].reactions == if s == InProgress then history[0].reactions + {Tools} else history[0].reactions
  {
    if s == InProgress && |history| > 0 then history[0 := history[0].(reactions := history[0].reactions + {Tools})] else history
  }


  /** Closing a ticket writes its final status and `closed_at`, and leaves its claim and privacy alone. */
  lemma CloseSetsClosedAt(rows: seq<Ticket>, threadId: int, s: Status, now: int)
    requires HasThread(rows, threadId)
    ensures var before := GetTicketByThread(rows, threadId).value;
      var after := GetTicketByThread(UpdateWhere(rows, threadId, CloseAs(s, now)), threadId);
      && after.Some?
      && after.value.status == s && after.value.closedAt == Some(now) && after.value.updatedAt == now
      && after.value.claimedBy == before.claimedBy && after.value.isPrivate == before.isPrivate
  {
    GetTicketAfterUpdate(rows, threadId, CloseAs(s, now), threadId);
  }

  /**
   * `update_status` (used by reopen and by `ticket_status`) writes the status
   * but never `closed_at`: a reopened ticket keeps its old close time, and one
   * set to closed by `ticket_status` keeps whatever it had.
   */
  lemma StatusChangeKeepsClosedAt(rows: seq<Ticket>, threadId: int, s: Status, now: int)
    requires HasThread(rows, threadId)
    ensures var before := GetTicketByThread(rows, threadId).value;
      var after := GetTicketByThread(UpdateWhere(rows, threadId, NewStatus(s, now)), threadId);
      && after.Some?
      && after.value.status == s && after.value.closedAt == before.closedAt
      && after.value.claimedBy == before.claimedBy && after.value.isPrivate == before.isPrivate
  {
    GetTicketAfterUpdate(rows, threadId, NewStatus(s, now), threadId);
  }

  /**
   * The claim guard reads `last_user_message_at`, which a new row sets to its
   * creation time: a ticket opened at any non-zero time is refused by
   * `ticket_claim` although nobody has claimed it.
   */
  lemma FreshTicketRefusesClaim(rows: seq<Ticket>, t: Ticket)
    requires !HasThread(rows, t.threadId)
    requires t == NewTicket(t.id, t.guildId, t.threadId, t.creatorId, t.isPrivate, t.title, t.createdAt)
    requires t.createdAt != 0
    ensures var row := GetTicketByThread(rows + [t], t.threadId);
      && row.Some?
      && row.value.claimedBy == None
      && Truthy(row.value.lastUserMessageAt)
  {
    GetTicketAfterInsert(rows, t, t.threadId);
  }

  /** Claiming and then unclaiming restores an unclaimed row's `claimed_by`, touching no other column but the timestamp. */
  lemma ClaimUnclaimRoundTrip(rows: seq<Ticket>, threadId: int, who: int, t1: int, t2: int)
    requires HasThread(rows, threadId)
    ensures var before := GetTicketByThread(rows, threadId).value;
      var claimed := UpdateWhere(rows, threadId, NewClaim(Some(who), t1));
      var after := GetTicketByThread(UpdateWhere(claimed, threadId, NewClaim(None, t2)), threadId);
      && GetTicketByThread(claimed, threadId).value.claimedBy == Some(who)
      && after == Some(before.(claimedBy := None, updatedAt := t2))
  {
    var claimed := UpdateWhere(rows, threadId, NewClaim(Some(who), t1));
    GetTicketAfterUpdate(rows, threadId, NewClaim(Some(who), t1), threadId);
    GetTicketAfterUpdate(claimed, threadId, NewClaim(None, t2), threadId);
  }

  /**
   * The refusals of `ticket_close`, in order: no row, no right to manage it, no
   * reply from the invoker (timeout), a reply other than "yes". `None` lets the
   * close proceed.
   */
  function CloseRefusal(row: Option<Ticket>, author: Member, rids: seq<int>, confirm: Option<ChatReply>): (r: Option<Reply>)
    ensures r.None? <==>
      row.Some? && CanManageTicket(author, rids, row.value.creatorId) && confirm.Some? && Lower(confirm.value.message.content) == "yes"
    ensures r.Some? ==> r.value in {NotManaged, NoPermission, TimedOut, Cancelled}
  {
    if row.None? then Some(NotManaged)
    else if !CanManageTicket(author, rids, row.value.creatorId) then Some(NoPermission)
    else if confirm.None? then Some(TimedOut)
    else if Lower(confirm.value.message.content) != "yes" then Some(Cancelled)
    else None
  }
}
