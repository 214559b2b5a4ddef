/** The bounded queue and the ingestion gate in front of it. */
module EventQueues {
  import opened Events

  /** `asyncio.Queue` behind `EventQueue`: a FIFO with an unfinished-task counter. */
  class EventQueue {
    const maxSize: int
    var items: seq<Event>
    var unfinished: int

    constructor (maxSize: int)
      ensures this.maxSize == maxSize && items == [] && unfinished == 0
    {
      this.maxSize := maxSize;
      items := [];
      unfinished := 0;
    }

    predicate Full()
      reads this
    {
      maxSize > 0 && |items| >= maxSize
    }

    /** Enqueue, or raise `QueueFull` and change nothing. */
    method PutNowait(e: Event) returns (ok: bool)
      modifies this
      ensures ok <==> maxSize <= 0 || |old(items)| < maxSize
      ensures ok ==> items == old(items) + [e] && unfinished == old(unfinished) + 1
      ensures !ok ==> items == old(items) && unfinished == old(unfinished)
    {
      ok := !Full();
      if ok {
        items := items + [e];
        unfinished := unfinished + 1;
      }
    }

    /** Dequeue the oldest event, or raise `QueueEmpty`. */
    method GetNowait() returns (r: Option<Event>)
      modifies this`items
      ensures old(items) == [] ==> r == None && items == []
      ensures old(items) != [] ==> r == Some(old(items)[0]) && items == old(items)[1..]
    {
      if items == [] {
        return None;
      }
      r := Some(items[0]);
      items := items[1..];
    }

    /** Acknowledge one event; one acknowledgement too many raises `ValueError`. */
    method TaskDone() returns (ok: bool)
      modifies this`unfinished
      ensures ok == (old(unfinished) > 0)
      ensures unfinished == if ok then old(unfinished) - 1 else old(unfinished)
    {
      ok := unfinished > 0;
      if ok {
        unfinished := unfinished - 1;
      }
    }
  }

  /** `EventCreate` with the optional fields as the client sent them. */
  datatype Body = Body(
    eventType: string, userId: string, sourceUrl: string,
    timestamp: Option<int>, metadata: Option<Json>, schemaVersion: Option<int>)

  /** The stored document for an accepted request: defaults filled in, id and receipt time assigned. */
  function ToDocument(b: Body, id: EventId, now: int): Event {
    Event(id, now, b.eventType,
          if b.timestamp.Some? then b.timestamp.value else now,
          b.userId, b.sourceUrl,
          if b.metadata.Some? then b.metadata.value else Dict([]),
          if b.schemaVersion.Some? then b.schemaVersion.value else 1)
  }

  /** The characters `str.strip` removes. */
  predicate IsSpace(ch: char) {
    var n := ch as int;
    || 0x09 <= n <= 0x0D || 0x1C <= n <= 0x20 || n == 0x85 || n == 0xA0 || n == 0x1680
    || 0x2000 <= n <= 0x200A || n == 0x2028 || n == 0x2029 || n == 0x202F || n == 0x205F || n == 0x3000
  }

  function StripLeft(s: string): string {
    if s != [] && IsSpace(s[0]) then StripLeft(s[1..]) else s
  }

  function StripRight(s: string): string {
    if s != [] && IsSpace(s[|s| - 1]) then StripRight(s[..|s| - 1]) else s
  }

  function Strip(s: string): string {
    StripRight(StripLeft(s))
  }

  predicate Spaces(s: string) {
    forall i :: 0 <= i < |s| ==> IsSpace(s[i])
  }

  predicate Trimmed(s: string) {
    s != "" ==> !IsSpace(s[0]) && !IsSpace(s[|s| - 1])
  }

  lemma {:induction false} StripLeftSpec(s: string) returns (a: string)
    ensures s == a + StripLeft(s) && Spaces(a)
    ensures StripLeft(s) != "" ==> !IsSpace(StripLeft(s)[0])
  {
    a := "";
    if s != "" && IsSpace(s[0]) {
      a := StripLeftSpec(s[1..]);
      a := [s[0]] + a;
    }
  }

  lemma {:induction false} StripRightSpec(s: string) returns (b: string)
    ensures s == StripRight(s) + b && Spaces(b)
    ensures StripRight(s) != "" ==> !IsSpace(StripRight(s)[|StripRight(s)| - 1])
  {
    b := "";
    if s != "" && IsSpace(s[|s| - 1]) {
      b := StripRightSpec(s[..|s| - 1]);
      b := b + [s[|s| - 1]];
    }
  }

  /** Stripping takes off spaces at both ends, and all of them. */
  lemma {:induction false} StripSpec(s: string) returns (a: string, b: string)
    ensures s == a + Strip(s) + b && Spaces(a) && Spaces(b) && Trimmed(Strip(s))
  {
    a := StripLeftSpec(s);
    b := StripRightSpec(StripLeft(s));
  }

  lemma {:induction false} StripUnique(a: string, k: string, b: string, a': string, k': string, b': string)
    requires a + k + b == a' + k' + b' && Spaces(a) && Spaces(b) && Spaces(a') && Spaces(b') && Trimmed(k) && Trimmed(k')
    ensures k == k'
  {
    var s := a + k + b;
    assert forall i :: 0 <= i < |k| ==> k[i] == s[|a| + i];
    assert forall i :: 0 <= i < |k'| ==> k'[i] == s[|a'| + i];
    assert forall i :: 0 <= i < |s| && (i < |a| || i >= |a| + |k|) ==> IsSpace(s[i]);
    assert forall i :: 0 <= i < |s| && (i < |a'| || i >= |a'| + |k'|) ==> IsSpace(s[i]);
    if k != "" {
      assert !IsSpace(s[|a|]) && !IsSpace(s[|a| + |k| - 1]);
    }
    if k' != "" {
      assert !IsSpace(s[|a'|]) && !IsSpace(s[|a'| + |k'| - 1]);
    }
  }

  /** The header is `k`, which is not blank, between spaces. */
  ghost predicate Carries(header: Option<string>, k: string) {
    && header.Some? && k != "" && Trimmed(k)
    && exists a, b :: Spaces(a) && Spaces(b) && header.value == a + k + b
  }

  ghost predicate Blank(header: Option<string>) {
    header.None? || Spaces(header.value)
  }

  /** The key is what stands between the surrounding spaces; a blank header has none, any other exactly one. */
  lemma {:induction false} KeyExactly(header: Option<string>)
    ensures forall k :: KeyOf(header) == Some(k) <==> Carries(header, k)
    ensures KeyOf(header) == None <==> Blank(header)
  {
    if header.Some? {
      hide IsSpace, Strip;
      var s := header.value;
      var a, b := StripSpec(s);
      forall k ensures Carries(header, k) <==> KeyOf(header) == Some(k) {
        if Carries(header, k) {
          var a', b' :| Spaces(a') && Spaces(b') && s == a' + k + b';
          StripUnique(a, Strip(s), b, a', k, b');
        }
      }
      if Strip(s) != "" {
        assert s[|a|] == Strip(s)[0];
      }
    }
  }

  /** The key a request carries, if any: absent, empty and blank headers carry none. */
  function KeyOf(header: Option<string>): Option<string> {
    if header.None? || Strip(header.value) == "" then None else Some(Strip(header.value))
  }

  /** `uuid5` of the key when there is one, else a fresh `uuid4`. */
  function AssignedId(key: Option<string>, uuid5: string -> EventId, uuid4: EventId): EventId {
    if key.Some? then uuid5(key.value) else uuid4
  }

  /** Client fields as sent, defaults where absent, the receipt time from the clock. */
  predicate Describes(doc: Event, b: Body, now: int) {
    && doc.eventType == b.eventType && doc.userId == b.userId && doc.sourceUrl == b.sourceUrl && doc.receivedAt == now
    && (match b.timestamp case Some(t) => doc.timestamp == t case None => doc.timestamp == now)
    && (match b.metadata case Some(m) => doc.metadata == m case None => doc.metadata == Dict([]))
    && (match b.schemaVersion case Some(v) => doc.schemaVersion == v case None => doc.schemaVersion == 1)
  }

  datatype IngestResult = Accepted(doc: Event) | Closed | QueueFull

  class IngestionService {
    const queue: EventQueue
    var accepting: bool

    constructor (queue: EventQueue)
      ensures this.queue == queue && accepting
    {
      this.queue := queue;
      accepting := true;
    }

    method StopAccepting()
      modifies this`accepting
      ensures !accepting
    {
      accepting := false;
    }

    /** Assign identifiers and enqueue; a refusal leaves the queue as it was. */
    method Ingest(body: Body, header: Option<string>, uuid5: string -> EventId, uuid4: EventId, now: int)
      returns (r: IngestResult)
      modifies queue
      ensures r.Closed? <==> !accepting
      ensures r.QueueFull? <==> accepting && 0 < queue.maxSize <= |old(queue.items)|
      ensures r.Accepted? ==>
        && r.doc == ToDocument(body, AssignedId(KeyOf(header), uuid5, uuid4), now)
        && queue.items == old(queue.items) + [r.doc] && queue.unfinished == old(queue.unfinished) + 1
      ensures r.Accepted? ==> Describes(r.doc, body, now)
      ensures r.Accepted? && Blank(header) ==> r.doc.id == uuid4
      ensures r.Accepted? ==> forall k :: Carries(header, k) ==> r.doc.id == uuid5(k)
      ensures !r.Accepted? ==> queue.items == old(queue.items) && queue.unfinished == old(queue.unfinished)
    {
      KeyExactly(header);
      if !accepting {
        return Closed;
      }
      var key := if header.Some? && header.value != "" then Some(Strip(header.value)) else None;
      var id := if key.Some? && key.value != "" then uuid5(key.value) else uuid4;
      var doc := ToDocument(body, id, now);
      var ok := queue.PutNowait(doc);
      r := if ok then Accepted(doc) else QueueFull;
    }
  }
}
