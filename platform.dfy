/**
 * The chat platform as the bot sees it: guild members with their role ids and
 * flags, the guild's roles and channels, the messages of a thread's history, and
 * threads, whose name, lock and archive flags and member set the bot edits.
 */
module Platform {
  import opened Wrappers

  /** A guild member: `member.id`, the ids of `member.roles`, `guild_permissions.administrator`, `member.bot`. */
  datatype Member = Member(id: int, roleIds: seq<int>, administrator: bool, bot: bool)

  /** The lookups the bot makes in a guild: members by id, the existing roles and channels. */
  datatype Guild = Guild(id: int, members: map<int, Member>, roleIds: set<int>, channelIds: set<int>)

  /** `guild.get_member(id)` */
  function GetMember(g: Guild, id: int): Option<Member> {
    if id in g.members then Some(g.members[id]) else None
  }

  /** `role.members` of the role `rid`: the guild members that hold it. */
  function RoleMembers(g: Guild, rid: int): set<Member> {
    set m | m in g.members.Values && rid in m.roleIds
  }

  function MemberIds(ms: set<Member>): set<int> {
    set m | m in ms :: m.id
  }

  /** Some id of a non-empty set of ids, the next one a loop over a member list visits. */
  method PickId(ids: set<int>) returns (x: int)
    requires ids != {}
    ensures x in ids
  {
    if forall y :: y !in ids {
      assert false;
    }
    x :| x in ids;
  }

  /**
   * The emoji the bot reacts with or reads: the in-progress marker, the two
   * resolution symbols, and any other emoji.
   */
  datatype Emoji = Tools | CheckMark | CrossMark | OtherEmoji(name: string)

  /**
   * A message of a thread's history, with its creation time already rendered in
   * the two formats the transcripts use (`%Y-%m-%d %H:%M:%S` and ISO 8601) and
   * `str(message.author)` as `authorName`.
   */
  datatype Message = Message(
    authorId: int, authorName: string, plainTs: string, isoTs: string,
    content: string, reactions: set<Emoji>)

  /**
   * Who posts a message and when: the poster's id and `str(author)`, and the
   * creation time in the two transcript formats.
   */
  datatype Stamp = Stamp(authorId: int, authorName: string, plainTs: string, isoTs: string)

  /** The message posted at `at` with `content`, carrying the reactions its poster adds. */
  function Post(at: Stamp, content: string, reactions: set<Emoji>): Message {
    Message(at.authorId, at.authorName, at.plainTs, at.isoTs, content, reactions)
  }

  /** A ticket thread: its fixed identity and type, and the state the bot edits. */
  class Thread {
    const id: int
    const parentId: int
    /** The thread's type (`thread.is_private()`); no command changes it. */
    const isPrivate: bool
    var name: string
    var locked: bool
    var archived: bool
    /** Ids of the users who are members of the thread. */
    var members: set<int>
    var history: seq<Message>

    constructor (id: int, parentId: int, isPrivate: bool, name: string)
      ensures this.id == id && this.parentId == parentId && this.isPrivate == isPrivate
      ensures this.name == name && !locked && !archived && members == {} && history == []
    {
      this.id := id;
      this.parentId := parentId;
      this.isPrivate := isPrivate;
      this.name := name;
      locked := false;
      archived := false;
      members := {};
      history := [];
    }
  }
}
