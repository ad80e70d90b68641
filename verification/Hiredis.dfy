/** The part of the hiredis library the cluster code uses. What the network does next is a
    script; what the library has handed out and not yet got back is a ledger. Freeing something
    that is not in the ledger, or sending a command on a context that is not, is ruled out by
    precondition. */
module Hiredis {
  import opened Options

  datatype Reply =
    | Error(text: string)
    | Status(text: string)
    | Str(text: string)
    | Integer(value: int)
    | Nil
    | Array(elements: seq<Reply>)

  // redisConnectWithTimeout: no context at all, one with its error flag set, or a good one.
  datatype Connect = NoContext | BadContext | GoodContext

  datatype Command =
    | Auth(password: string)
    | SetEx(key: string, value: string, ttlSeconds: int)
    | Ping
    | Scan(cursor: string, pattern: string, count: nat)

  // A command that was sent, and what came back.
  datatype Sent = Sent(ctx: nat, command: Command, answer: Option<Reply>)

  datatype Library = Library(
    connects: seq<Connect>,          // outcomes of the connection attempts to come
    answers: seq<Option<Reply>>,     // answers to the commands to come; None is a null reply
    contexts: nat,                   // contexts allocated so far, numbered from 0
    live: set<nat>,                  // ... of which these are not freed
    replies: nat,                    // replies handed out so far
    held: set<nat>,                  // ... of which these are not freed
    log: seq<Sent>)                  // the commands sent, in order

  // The network gives no more than it has: past the end of the script nothing works.
  function NextConnect(lib: Library): Connect {
    if lib.connects == [] then NoContext else lib.connects[0]
  }

  function NextAnswer(lib: Library): Option<Reply> {
    if lib.answers == [] then None else lib.answers[0]
  }

  function Recorded(lib: Library, ctx: nat, command: Command): Sent {
    Sent(ctx, command, NextAnswer(lib))
  }

  function Rest<T>(s: seq<T>): seq<T> {
    if s == [] then [] else s[1..]
  }

  datatype Opened = Opened(lib: Library, ctx: Option<nat>, err: bool)

  function ConnectWithTimeout(lib: Library): Opened {
    var rest := lib.(connects := Rest(lib.connects));
    match NextConnect(lib)
    case NoContext => Opened(rest, None, true)
    case BadContext => Opened(rest.(contexts := lib.contexts + 1, live := lib.live + {lib.contexts}), Some(lib.contexts), true)
    case GoodContext => Opened(rest.(contexts := lib.contexts + 1, live := lib.live + {lib.contexts}), Some(lib.contexts), false)
  }

  datatype Handle = Handle(id: nat, reply: Reply)
  datatype Answer = Answer(lib: Library, handle: Option<Handle>)

  function RunCommand(lib: Library, ctx: nat, command: Command): Answer
    requires ctx in lib.live
  {
    var after := lib.(answers := Rest(lib.answers), log := lib.log + [Recorded(lib, ctx, command)]);
    match NextAnswer(lib)
    case None => Answer(after, None)
    case Some(reply) =>
      Answer(after.(replies := lib.replies + 1, held := lib.held + {lib.replies}), Some(Handle(lib.replies, reply)))
  }

  function FreeContext(lib: Library, ctx: nat): Library
    requires ctx in lib.live
  {
    lib.(live := lib.live - {ctx})
  }

  function FreeReply(lib: Library, handle: Handle): Library
    requires handle.id in lib.held
  {
    lib.(held := lib.held - {handle.id})
  }
}
