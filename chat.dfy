/**
 * What the framework sees of the chat platform: the incoming message (its
 * author, its guild member if any, its text) and the channel it answers on,
 * whose `createMessage` calls are recorded, in order, in an append-only log.
 */
module Chat {
  import opened Js

  /** A guild member and the permission names `member.permission.has` accepts. */
  datatype Member = Member(permissions: set<string>)

  /** An incoming message: `msg.author.id`, `msg.member` (absent outside guilds), `msg.content`. */
  datatype Message = Message(authorId: string, member: Option<Member>, content: string)

  /** One field of an embed. */
  datatype Field = Field(name: string, value: string)

  /** An embed with a title and fields, as the help command builds them. */
  datatype Embed = Embed(title: string, fields: seq<Field>)

  /**
   * The body of one `createMessage` call: a plain value (a string, or whatever a
   * command returned), a help embed, or the embed a command documents itself with
   * (its contents are not modelled; the command is named by its label).
   */
  datatype Outgoing =
    | Content(body: Value)
    | HelpEmbed(embed: Embed)
    | CommandEmbed(commandLabel: string)

  /** A plain-text message. */
  function Text(s: string): Outgoing {
    Content(Str(s))
  }

  /** The channel a message arrived on; `log` holds everything sent to it, oldest first. */
  class Channel {
    var log: seq<Outgoing>

    constructor ()
      ensures log == []
    {
      log := [];
    }

    /** `channel.createMessage(body)`. */
    method CreateMessage(body: Outgoing)
      modifies this
      ensures log == old(log) + [body]
    {
      log := log + [body];
    }

    /** The `createMessage` calls a step makes, one after another. */
    method CreateMessages(bodies: seq<Outgoing>)
      modifies this
      ensures log == old(log) + bodies
    {
      for i := 0 to |bodies|
        invariant log == old(log) + bodies[..i]
      {
        CreateMessage(bodies[i]);
        assert bodies[..i + 1] == bodies[..i] + [bodies[i]];
      }
      assert bodies[..|bodies|] == bodies;
    }
  }
}
