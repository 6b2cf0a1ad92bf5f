/**
 The server-sent event stream: the frames the server prints and the dashboard's incremental
 parser, which must not depend on how the network cuts the text into chunks.
 */
module EventStream {
  import opened Wrappers

  /**
   JSON and the event's type tag. `read` is JSON.parse, None where it throws, and `isSnapshot`
   the client's test of the parsed type.
   */
  datatype Codec<!E(!new)> = Codec(
    tag: E -> string,
    show: E -> string,
    read: string -> Option<E>,
    isSnapshot: E -> bool)

  predicate OneLine(s: string) {
    forall c | c in s :: c != '\n'
  }

  ghost predicate Faithful<E(!new)>(codec: Codec<E>) {
    forall e :: OneLine(codec.tag(e)) && OneLine(codec.show(e)) && codec.read(codec.show(e)) == Some(e)
  }

  // ----- the server -----

  datatype Item<E> = Retry | Keepalive | Publish(event: E)

  function Body<E(!new)>(codec: Codec<E>, item: Item<E>): string {
    match item
    case Retry => "retry: 3000"
    case Keepalive => ": keepalive"
    case Publish(e) => "event: " + codec.tag(e) + "\n" + ("data: " + codec.show(e))
  }

  const BLANK := "\n\n"

  function Text<E(!new)>(codec: Codec<E>, items: seq<Item<E>>): string {
    if items == [] then "" else Body(codec, items[0]) + BLANK + Text(codec, items[1..])
  }

  function Snapshots<E(!new)>(codec: Codec<E>, items: seq<Item<E>>): seq<E> {
    if items == [] then []
    else
      (if items[0].Publish? && codec.isSnapshot(items[0].event) then [items[0].event] else [])
      + Snapshots(codec, items[1..])
  }

  // ----- the client -----

  predicate BlankAt(s: string, i: nat) {
    i + 1 < |s| && s[i] == '\n' && s[i + 1] == '\n'
  }

  /** indexOf of a blank line. */
  function FirstBlank(s: string): (i: Option<nat>)
    ensures i.Some? ==> BlankAt(s, i.value) && forall j: nat | j < i.value :: !BlankAt(s, j)
    ensures i.None? ==> forall j: nat :: !BlankAt(s, j)
  {
    if |s| < 2 then None
    else if BlankAt(s, 0) then Some(0)
    else
      var rest := FirstBlank(s[1..]);
      assert forall j: nat | j > 0 :: BlankAt(s, j) <==> BlankAt(s[1..], j - 1);
      if rest.Some? then Some(rest.value + 1) else None
  }

  datatype Cut = Cut(frames: seq<string>, tail: string)

  /** split at blank lines, with the last piece popped off as the new buffer. */
  function Split(s: string): Cut
    decreases |s|
  {
    match FirstBlank(s)
    case None => Cut([], s)
    case Some(i) =>
      var rest := Split(s[i + 2..]);
      Cut([s[..i]] + rest.frames, rest.tail)
  }

  function LineEnd(s: string): (i: nat)
    ensures i <= |s| && OneLine(s[..i]) && (i < |s| ==> s[i] == '\n')
  {
    if s == "" || s[0] == '\n' then 0
    else
      var i := LineEnd(s[1..]) + 1;
      assert s[..i] == [s[0]] + s[1..][..i - 1];
      i
  }

  const DATA := "data: "

  /** The rest of the first line that starts with the data prefix. */
  function DataOf(frame: string): Option<string>
    decreases |frame|
  {
    var i := LineEnd(frame);
    if DATA <= frame[..i] then Some(frame[..i][|DATA|..])
    else if i < |frame| then DataOf(frame[i + 1..])
    else None
  }

  /** What one frame delivers; a frame without data, or that does not parse, delivers nothing. */
  function Delivery<E(!new)>(codec: Codec<E>, frame: string): seq<E> {
    match DataOf(frame)
    case None => []
    case Some(data) =>
      match codec.read(data)
      case None => []
      case Some(e) => if codec.isSnapshot(e) then [e] else []
  }

  function Deliveries<E(!new)>(codec: Codec<E>, frames: seq<string>): seq<E> {
    if frames == [] then [] else Deliveries(codec, frames[..|frames| - 1]) + Delivery(codec, frames[|frames| - 1])
  }

  lemma DeliveriesNext<E(!new)>(codec: Codec<E>, frames: seq<string>, k: nat)
    requires k < |frames|
    ensures Deliveries(codec, frames[..k + 1]) == Deliveries(codec, frames[..k]) + Delivery(codec, frames[k])
  {
    assert frames[..k + 1][..k] == frames[..k];
  }

  class Client<E(!new)> {
    const codec: Codec<E>
    var buffer: string
    var delivered: seq<E>

    constructor (codec: Codec<E>)
      ensures this.codec == codec && buffer == "" && delivered == []
    {
      this.codec, buffer, delivered := codec, "", [];
    }

    method Handle(frame: string)
      modifies this`delivered
      ensures delivered == old(delivered) + Delivery(codec, frame)
    {
      var data := DataOf(frame);
      if data.Some? {
        var parsed := codec.read(data.value);
        if parsed.Some? && codec.isSnapshot(parsed.value) {
          delivered := delivered + [parsed.value];
        }
      }
    }

    /** One read of the response body. */
    method Feed(chunk: string)
      modifies this
      ensures var cut := Split(old(buffer) + chunk);
        buffer == cut.tail && delivered == old(delivered) + Deliveries(codec, cut.frames)
    {
      buffer := buffer + chunk;
      var cut := Split(buffer);
      var frames := cut.frames;
      buffer := cut.tail;
      for k := 0 to |frames|
        invariant buffer == cut.tail && delivered == old(delivered) + Deliveries(codec, frames[..k])
      {
        DeliveriesNext(codec, frames, k);
        Handle(frames[k]);
      }
      assert frames[..|frames|] == frames;
    }

    /** The read loop: whatever the chunks, it ends as one read of all the text would. */
    method ReadAll(chunks: seq<string>)
      requires buffer == "" && delivered == []
      modifies this
      ensures buffer == Split(Joined(chunks)).tail
      ensures delivered == Deliveries(codec, Split(Joined(chunks)).frames)
    {
      for k := 0 to |chunks|
        invariant buffer == Split(Joined(chunks[..k])).tail
        invariant delivered == Deliveries(codec, Split(Joined(chunks[..k])).frames)
      {
        assert chunks[..k + 1][..k] == chunks[..k];
        SplitAppend(Joined(chunks[..k]), chunks[k]);
        DeliveriesAppend(codec, Split(Joined(chunks[..k])).frames, Split(buffer + chunks[k]).frames);
        Feed(chunks[k]);
      }
      assert chunks[..|chunks|] == chunks;
    }
  }

  function Joined(chunks: seq<string>): string {
    if chunks == [] then "" else Joined(chunks[..|chunks| - 1]) + chunks[|chunks| - 1]
  }

  lemma SplitStep(s: string, i: nat)
    requires FirstBlank(s) == Some(i)
    ensures Split(s) == Joint([s[..i]], Split(s[i + 2..]))
  {
  }

  /** Splitting what is left over together with what comes next is splitting the whole. */
  lemma {:induction false} SplitAppend(a: string, b: string)
    ensures Split(a + b) == Joint(Split(a).frames, Split(Split(a).tail + b))
    decreases |a|
  {
    match FirstBlank(a)
    case None =>
      assert Split(a) == Cut([], a);
      assert [] + Split(a + b).frames == Split(a + b).frames;
    case Some(i) =>
      var a' := a[i + 2..];
      SameBlank(a, b, i);
      SplitStep(a, i);
      SplitStep(a + b, i);
      SplitAppend(a', b);
      JointCons(a[..i], Split(a').frames, Split(Split(a').tail + b));
  }

  function Joint(frames: seq<string>, cut: Cut): Cut {
    Cut(frames + cut.frames, cut.tail)
  }

  lemma JointCons(frame: string, frames: seq<string>, cut: Cut)
    ensures Joint([frame] + frames, cut) == Joint([frame], Joint(frames, cut))
  {
    assert ([frame] + frames) + cut.frames == [frame] + (frames + cut.frames);
  }

  lemma SameBlank(a: string, b: string, i: nat)
    requires FirstBlank(a) == Some(i)
    ensures FirstBlank(a + b) == Some(i)
    ensures (a + b)[i + 2..] == a[i + 2..] + b && (a + b)[..i] == a[..i]
  {
    assert forall j: nat | j <= i :: BlankAt(a + b, j) <==> BlankAt(a, j);
  }

  lemma {:induction false} DeliveriesAppend<E(!new)>(codec: Codec<E>, a: seq<string>, b: seq<string>)
    ensures Deliveries(codec, a + b) == Deliveries(codec, a) + Deliveries(codec, b)
  {
    if b == [] {
      assert a + b == a;
    } else {
      assert (a + b)[..|a + b| - 1] == a + b[..|b| - 1];
      DeliveriesAppend(codec, a, b[..|b| - 1]);
    }
  }

  // ----- the round trip -----

  /** A body that can be followed by a blank line without being cut early. */
  ghost predicate Closed(body: string) {
    && body != "" && body[|body| - 1] != '\n'
    && forall j: nat :: !BlankAt(body, j)
  }

  lemma BodyClosed<E(!new)>(codec: Codec<E>, item: Item<E>)
    requires Faithful(codec)
    ensures Closed(Body(codec, item))
  {
    if item.Publish? {
      var tag, show := codec.tag(item.event), codec.show(item.event);
      var head, data := "event: " + tag, DATA + show;
      assert OneLine(tag) && OneLine(show);
      LineOf("event: ", tag);
      LineOf(DATA, show);
      assert Body(codec, item) == head + "\n" + data;
      TwoLinesClosed(head, data);
    }
  }

  lemma LineOf(a: string, b: string)
    requires OneLine(a) && OneLine(b)
    ensures OneLine(a + b)
  {
  }

  lemma TwoLinesClosed(a: string, b: string)
    requires OneLine(a) && OneLine(b) && a != "" && b != ""
    ensures Closed(a + "\n" + b)
  {
    var s := a + "\n" + b;
    assert s[|s| - 1] == b[|b| - 1] && b[|b| - 1] in b;
    forall j: nat | j + 1 < |s| ensures !BlankAt(s, j) {
      if j < |a| {
        assert s[j] == a[j] && a[j] in a;
      } else {
        assert s[j + 1] == b[j - |a|] && b[j - |a|] in b;
      }
    }
  }

  lemma SplitBody(body: string, rest: string)
    requires Closed(body)
    ensures Split(body + BLANK + rest) == Cut([body] + Split(rest).frames, Split(rest).tail)
  {
    var s := body + BLANK + rest;
    assert BlankAt(s, |body|);
    forall j: nat | j < |body| ensures !BlankAt(s, j) {
      assert j + 1 < |body| ==> !BlankAt(body, j);
    }
    assert FirstBlank(s) == Some(|body|);
    assert s[..|body|] == body && s[|body| + 2..] == rest;
  }

  lemma BodyDelivers<E(!new)>(codec: Codec<E>, item: Item<E>)
    requires Faithful(codec)
    ensures Delivery(codec, Body(codec, item)) == Snapshots(codec, [item])
  {
    assert [item][1..] == [];
    match item
    case Retry => RetryHasNoData();
    case Keepalive => KeepaliveHasNoData();
    case Publish(e) =>
      assert OneLine(codec.tag(e)) && OneLine(codec.show(e));
      EventData(codec.tag(e), codec.show(e));
  }

  lemma RetryHasNoData()
    ensures DataOf("retry: 3000").None?
  {
    var line := "retry: 3000";
    assert line[0] != DATA[0];
    NoData(line);
  }

  lemma KeepaliveHasNoData()
    ensures DataOf(": keepalive").None?
  {
    var line := ": keepalive";
    assert line[0] != DATA[0];
    NoData(line);
  }

  lemma EventData(tag: string, show: string)
    requires OneLine(tag) && OneLine(show)
    ensures DataOf("event: " + tag + "\n" + (DATA + show)) == Some(show)
  {
    var head := "event: " + tag;
    LineOf("event: ", tag);
    LineOf(DATA, show);
    assert head[0] == 'e' && DATA[0] == 'd';
    DataAfter(head, show);
  }

  lemma {:induction false} LineEndIs(s: string, n: nat)
    requires n <= |s| && (forall j | 0 <= j < n :: s[j] != '\n') && (n < |s| ==> s[n] == '\n')
    ensures LineEnd(s) == n
    decreases n
  {
    if n > 0 {
      LineEndIs(s[1..], n - 1);
    }
  }

  lemma LineEndAt(line: string, rest: string)
    requires OneLine(line) && (rest == "" || rest[0] == '\n')
    ensures LineEnd(line + rest) == |line|
  {
    assert forall j | 0 <= j < |line| :: line[j] in line;
    LineEndIs(line + rest, |line|);
  }

  lemma NoData(line: string)
    requires OneLine(line) && !(DATA <= line)
    ensures DataOf(line).None?
  {
    assert line + "" == line && line[..|line|] == line;
    LineEndAt(line, "");
  }

  lemma DataAfter(head: string, show: string)
    requires OneLine(head) && OneLine(DATA + show) && !(DATA <= head)
    ensures DataOf(head + "\n" + (DATA + show)) == Some(show)
  {
    var data := DATA + show;
    var s := head + "\n" + data;
    assert s == head + ("\n" + data);
    LineEndAt(head, "\n" + data);
    assert s[..|head|] == head && s[|head| + 1..] == data;
    assert data + "" == data && data[..|data|] == data && data[|DATA|..] == show;
    LineEndAt(data, "");
  }

  lemma {:induction false} TextSplits<E(!new)>(codec: Codec<E>, items: seq<Item<E>>, part: string)
    requires Faithful(codec) && forall j: nat :: !BlankAt(part, j)
    ensures var cut := Split(Text(codec, items) + part);
      cut.tail == part && Deliveries(codec, cut.frames) == Snapshots(codec, items)
    decreases |items|
  {
    if items == [] {
      assert "" + part == part;
    } else {
      var body, rest := Body(codec, items[0]), Text(codec, items[1..]) + part;
      TextSplits(codec, items[1..], part);
      BodyClosed(codec, items[0]);
      BodyDelivers(codec, items[0]);
      assert Text(codec, items) + part == body + BLANK + rest;
      SplitBody(body, rest);
      DeliveriesAppend(codec, [body], Split(rest).frames);
      OneFrame(codec, body);
      SnapshotsCons(codec, items);
    }
  }

  lemma OneFrame<E(!new)>(codec: Codec<E>, frame: string)
    ensures Deliveries(codec, [frame]) == Delivery(codec, frame)
  {
    assert [frame][..0] == [];
    assert Deliveries(codec, [frame][..0]) == [];
  }

  lemma SnapshotsCons<E(!new)>(codec: Codec<E>, items: seq<Item<E>>)
    requires items != []
    ensures Snapshots(codec, items) == Snapshots(codec, [items[0]]) + Snapshots(codec, items[1..])
  {
    assert [items[0]][1..] == [];
    assert Snapshots(codec, [items[0]][1..]) == [];
  }

  /** Wherever the text is cut off, it is some whole items and a part of the next without a blank line. */
  lemma {:induction false} PrefixIsItems<E(!new)>(codec: Codec<E>, items: seq<Item<E>>, n: nat)
    returns (k: nat, part: string)
    requires Faithful(codec) && n <= |Text(codec, items)|
    ensures k <= |items| && Text(codec, items)[..n] == Text(codec, items[..k]) + part
    ensures (forall j: nat :: !BlankAt(part, j)) && (n == |Text(codec, items)| ==> k == |items|)
    decreases |items|
  {
    if items == [] {
      return 0, "";
    }
    var body, rest := Body(codec, items[0]), Text(codec, items[1..]);
    var whole := body + BLANK;
    BodyClosed(codec, items[0]);
    if n < |whole| {
      PrefixOpen(body, n);
      k, part := 0, whole[..n];
      assert items[..0] == [] && "" + part == part && (whole + rest)[..n] == part;
    } else {
      k, part := PrefixIsItems(codec, items[1..], n - |whole|);
      TextCons(codec, items, k);
      PrefixPast(whole, rest, n, Text(codec, items[1..][..k]), part);
      k := k + 1;
    }
  }

  lemma PrefixPast(whole: string, rest: string, n: nat, text: string, part: string)
    requires |whole| <= n <= |whole + rest| && rest[..n - |whole|] == text + part
    ensures (whole + rest)[..n] == whole + text + part
  {
    assert (whole + rest)[..n] == whole + rest[..n - |whole|];
  }

  lemma PrefixOpen(body: string, n: nat)
    requires Closed(body) && n < |body + BLANK|
    ensures forall j: nat :: !BlankAt((body + BLANK)[..n], j)
  {
    forall j: nat | j + 1 < n ensures !BlankAt((body + BLANK)[..n], j) {
      assert j + 1 < |body| ==> !BlankAt(body, j);
    }
  }

  lemma TextCons<E(!new)>(codec: Codec<E>, items: seq<Item<E>>, k: nat)
    requires k < |items|
    ensures Text(codec, items[..k + 1]) == Body(codec, items[0]) + BLANK + Text(codec, items[1..][..k])
  {
    assert items[..k + 1][0] == items[0] && items[..k + 1][1..] == items[1..][..k];
  }

  /**
   Print, break off anywhere, cut into any chunks, parse: exactly the snapshots of the items
   printed whole, in order, and the unterminated rest in the buffer. When nothing is broken off
   that is every snapshot published, and an empty buffer.
   */
  method StreamDelivers<E(!new)>(client: Client<E>, items: seq<Item<E>>, n: nat, chunks: seq<string>)
    returns (ghost k: nat)
    requires Faithful(client.codec) && client.buffer == "" && client.delivered == []
    requires n <= |Text(client.codec, items)| && Joined(chunks) == Text(client.codec, items)[..n]
    modifies client
    ensures k <= |items| && client.delivered == Snapshots(client.codec, items[..k])
    ensures Text(client.codec, items)[..n] == Text(client.codec, items[..k]) + client.buffer
    ensures forall j: nat :: !BlankAt(client.buffer, j)
    ensures n == |Text(client.codec, items)| ==>
      client.delivered == Snapshots(client.codec, items) && client.buffer == ""
  {
    ghost var part;
    k, part := PrefixIsItems(client.codec, items, n);
    TextSplits(client.codec, items[..k], part);
    assert items[..|items|] == items;
    client.ReadAll(chunks);
  }
}
