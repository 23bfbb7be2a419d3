/**
 * The state the project server keeps itself: the queue of change
 * notifications that the filesystem watcher fills and `poll` drains, with
 * the filename filter of the watcher and the response `poll` sends.
 */
module Server {
  import opened Wrappers
  import opened JsBuiltins

  /**
   * A notification as the watcher allocates it, `{isDirty: true}`. It is an
   * object: the queue compares notifications by identity, never by contents.
   */
  class Message {
    const isDirty: bool

    constructor (isDirty: bool)
      ensures this.isDirty == isDirty
    {
      this.isDirty := isDirty;
    }
  }

  /** No identity occurs twice. */
  predicate NoDuplicates<T(==)>(s: seq<T>) {
    forall i, j :: 0 <= i < j < |s| ==> s[i] != s[j]
  }

  /**
   * The watcher ignores a change to `filename` when `filename.indexOf('.') === 0`,
   * which holds exactly when the name starts with a dot; the empty name is not ignored.
   */
  function IsIgnoredFilename(filename: string): (r: bool)
    ensures r <==> |filename| > 0 && filename[0] == '.'
  {
    assert |filename| > 0 ==> filename[0..1] == [filename[0]];
    IndexOf(filename, ".") == 0
  }

  /** The queue after `addToPollQueue(message)`: appended unless that identity is already queued. */
  function Enqueued(queue: seq<Message>, message: Message): (r: seq<Message>)
    ensures message in r
    ensures |queue| <= |r| <= |queue| + 1 && r[..|queue|] == queue
    ensures r == queue <==> message in queue
    ensures NoDuplicates(queue) ==> NoDuplicates(r)
  {
    if IndexOfElement(queue, message) == -1 then queue + [message] else queue
  }

  /** Pushing the same object again changes nothing. */
  lemma EnqueuedIdempotent(queue: seq<Message>, message: Message)
    ensures Enqueued(Enqueued(queue, message), message) == Enqueued(queue, message)
  {
  }

  /** The queue after `addToPollQueue` has been called with each of `messages` in turn. */
  function EnqueuedAll(queue: seq<Message>, messages: seq<Message>): seq<Message>
    decreases |messages|
  {
    if messages == [] then queue else EnqueuedAll(Enqueued(queue, messages[0]), messages[1..])
  }

  /** Distinct objects pushed one after another are all kept, in push order, after what was pending. */
  lemma {:induction false} EnqueuedAllDistinct(queue: seq<Message>, messages: seq<Message>)
    requires NoDuplicates(queue + messages)
    ensures EnqueuedAll(queue, messages) == queue + messages
    decreases |messages|
  {
    if messages != [] {
      var m := messages[0];
      assert (queue + messages)[|queue|] == m;
      assert m !in queue by {
        forall i | 0 <= i < |queue| ensures queue[i] != m {
          assert (queue + messages)[i] == queue[i];
        }
      }
      assert Enqueued(queue, m) == queue + [m];
      assert queue + [m] + messages[1..] == queue + messages;
      EnqueuedAllDistinct(queue + [m], messages[1..]);
    }
  }

  /** The JSON text of one notification. */
  function MessageJson(isDirty: bool): string {
    "{\"isDirty\":" + (if isDirty then "true" else "false") + "}"
  }

  /** The comma-separated JSON texts of a list of notifications. */
  function ElementsJson(flags: seq<bool>): string
    decreases |flags|
  {
    if flags == [] then ""
    else if |flags| == 1 then MessageJson(flags[0])
    else MessageJson(flags[0]) + ("," + ElementsJson(flags[1..]))
  }

  /** `JSON.stringify` of a list of notifications, in order: the parser reads back exactly `flags`. */
  function ArrayJson(flags: seq<bool>): (r: string)
    ensures ParseArrayJson(r) == Some(flags)
  {
    var text := "[" + ElementsJson(flags) + "]";
    assert text[1..|text| - 1] == ElementsJson(flags);
    if flags != [] then
      ElementsRoundTrip(flags);
      assert MessageJson(flags[0])[0] == '{';
      text
    else
      text
  }

  /** The notification fields the serialization reads, in queue order. */
  function DirtyFlags(queue: seq<Message>): (r: seq<bool>)
    ensures |r| == |queue|
    ensures forall i :: 0 <= i < |queue| ==> r[i] == queue[i].isDirty
  {
    seq(|queue|, i requires 0 <= i < |queue| => queue[i].isDirty)
  }

  /** `s` begins with `p`. */
  predicate HasPrefix(s: string, p: string) {
    |p| <= |s| && s[..|p|] == p
  }

  /** Reads comma-separated notification texts back, or fails. */
  function ParseElements(s: string): Option<seq<bool>>
    decreases |s|
  {
    var n := if HasPrefix(s, MessageJson(true)) then |MessageJson(true)|
             else if HasPrefix(s, MessageJson(false)) then |MessageJson(false)|
             else 0;
    if n == 0 then None
    else
      var flag := n == |MessageJson(true)|;
      var rest := s[n..];
      if rest == [] then Some([flag])
      else if rest[0] != ',' then None
      else match ParseElements(rest[1..])
        case None => None
        case Some(flags) => Some([flag] + flags)
  }

  /** Reads a serialized notification list back, or fails. */
  function ParseArrayJson(s: string): Option<seq<bool>> {
    if |s| >= 2 && s[0] == '[' && s[|s| - 1] == ']' then
      var inner := s[1..|s| - 1];
      if inner == [] then Some([]) else ParseElements(inner)
    else None
  }

  /** One notification text followed by `tail` is read as that notification. */
  lemma ParseHead(flag: bool, tail: string)
    ensures var s := MessageJson(flag) + tail;
      ParseElements(s) ==
        if tail == [] then Some([flag])
        else if tail[0] != ',' then None
        else match ParseElements(tail[1..])
          case None => None
          case Some(flags) => Some([flag] + flags)
  {
    var s := MessageJson(flag) + tail;
    assert s[..|MessageJson(flag)|] == MessageJson(flag);
    assert s[|MessageJson(flag)|..] == tail;
    if !flag {
      assert s[11] == 'f' && MessageJson(true)[11] == 't';
      assert !HasPrefix(s, MessageJson(true));
    }
  }

  /** Parsing undoes the serialization of a non-empty list of notifications. */
  lemma {:induction false} ElementsRoundTrip(flags: seq<bool>)
    requires flags != []
    ensures ParseElements(ElementsJson(flags)) == Some(flags)
    decreases |flags|
  {
    if |flags| == 1 {
      ParseHead(flags[0], []);
      assert MessageJson(flags[0]) + [] == MessageJson(flags[0]) == ElementsJson(flags);
      assert flags == [flags[0]];
    } else {
      var tail := "," + ElementsJson(flags[1..]);
      ParseHead(flags[0], tail);
      assert tail[0] == ',' && tail[1..] == ElementsJson(flags[1..]);
      ElementsRoundTrip(flags[1..]);
      assert [flags[0]] + flags[1..] == flags;
    }
  }

  /** What the server answers: status, `Content-Type`, `Content-Length` and body. */
  datatype Response = Response(status: int, contentType: string, contentLength: nat, body: string)

  /**
   * The answer of `poll` for a queue: the queue serialized in insertion
   * order when it holds anything and the empty body otherwise; status 200
   * exactly for a non-empty body, 304 otherwise.
   */
  function PollResponse(queue: seq<Message>): (r: Response)
    ensures r.status == (if r.body != "" then 200 else 304)
    ensures r.status == 200 <==> queue != []
    ensures r.contentLength == |r.body| && r.contentType == "application/json"
    ensures queue == [] ==> r.body == ""
    ensures queue != [] ==> ParseArrayJson(r.body) == Some(DirtyFlags(queue))
  {
    var data := if |queue| > 0 then ArrayJson(DirtyFlags(queue)) else "";
    Response(if |data| > 0 then 200 else 304, "application/json", |data|, data)
  }

  /** The server's own state: the pending notifications, oldest first. */
  class ProjectServer {
    var pollQueue: seq<Message>

    /** The queue never holds the same notification twice. */
    ghost predicate Valid()
      reads this
    {
      NoDuplicates(pollQueue)
    }

    constructor ()
      ensures Valid() && pollQueue == []
    {
      pollQueue := [];
    }

    /** `addToPollQueue`: push `message` unless that very object is already pending. */
    method AddToPollQueue(message: Message)
      requires Valid()
      modifies this
      ensures Valid()
      ensures pollQueue == Enqueued(old(pollQueue), message)
    {
      if IndexOfElement(pollQueue, message) == -1 {
        pollQueue := pollQueue + [message];
      }
    }

    /** `poll`: answer with the pending notifications and leave the queue empty. */
    method Poll() returns (r: Response)
      requires Valid()
      modifies this
      ensures Valid()
      ensures pollQueue == []
      ensures r == PollResponse(old(pollQueue))
    {
      // The branches of `poll` themselves; together they yield `PollResponse` of the old queue.
      var data: string;
      if |pollQueue| > 0 {
        data := ArrayJson(DirtyFlags(pollQueue));
        pollQueue := [];
      } else {
        data := "";
      }
      r := Response(if |data| > 0 then 200 else 304, "application/json", |data|, data);
    }

    /**
     * The watcher callback: a change to a hidden file is ignored; any other
     * change queues a freshly allocated dirty notification, so every such
     * event adds one entry.
     */
    method FileChanged(filename: string)
      requires Valid()
      modifies this
      ensures Valid()
      ensures IsIgnoredFilename(filename) ==> pollQueue == old(pollQueue)
      ensures !IsIgnoredFilename(filename) ==>
        |pollQueue| == |old(pollQueue)| + 1 && pollQueue[..|old(pollQueue)|] == old(pollQueue) &&
        fresh(pollQueue[|old(pollQueue)|]) && pollQueue[|old(pollQueue)|].isDirty
    {
      if IndexOf(filename, ".") == 0 {
        return;
      }
      var message := new Message(true);
      AddToPollQueue(message);
    }
  }

  /**
   * Changes to `a.txt`, `a.txt` again and `.hidden`, then two polls: the
   * first answers 200 with two dirty notifications (the repeated change is
   * not collapsed), the second 304 with an empty body.
   */
  method WatcherScenario() returns (first: Response, second: Response)
    ensures first.status == 200 && ParseArrayJson(first.body) == Some([true, true])
    ensures second == Response(304, "application/json", 0, "")
  {
    var server := new ProjectServer();
    server.FileChanged("a.txt");
    server.FileChanged("a.txt");
    server.FileChanged(".hidden");
    assert |server.pollQueue| == 2 && server.pollQueue[0].isDirty && server.pollQueue[1].isDirty;
    assert DirtyFlags(server.pollQueue) == [true, true];
    first := server.Poll();
    second := server.Poll();
  }
}
