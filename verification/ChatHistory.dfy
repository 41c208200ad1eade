/** The chat history of a channel: a ring of fixed-size text slots that are overwritten in
    place (CollabVmChatRoom.hpp). */
module ChatHistory {
  const MAX_HISTORY: nat := 100

  datatype Slot = Slot(sender: string, message: string, timestamp: int)

  /** A message as it was sent. */
  datatype Entry = Entry(username: string, text: string, time: int)

  /** The lengths of the text slots. */
  datatype Limits = Limits(username: nat, message: nat)

  datatype Ring = Ring(slots: seq<Slot>, next: nat, count: nat)

  function Zeros(n: nat): string { seq(n, _ => '\0') }

  /** Copying into a text slot: the text, then zeros up to the slot's end. */
  function Overwritten(slot: string, text: string): string
    requires |text| <= |slot|
  {
    text + Zeros(|slot| - |text|)
  }

  predicate FitsIn(e: Entry, l: Limits) {
    |e.username| <= l.username && |e.text| <= l.message
  }

  predicate Shaped(r: Ring, l: Limits) {
    && |r.slots| == MAX_HISTORY && r.next < MAX_HISTORY && r.count <= MAX_HISTORY
    && forall i :: 0 <= i < MAX_HISTORY ==> |r.slots[i].sender| == l.username && |r.slots[i].message| == l.message
  }

  function Empty(l: Limits): (r: Ring)
    ensures Shaped(r, l)
  {
    Ring(seq(MAX_HISTORY, _ => Slot(Zeros(l.username), Zeros(l.message), 0)), 0, 0)
  }

  function Add(r: Ring, l: Limits, e: Entry): (r': Ring)
    requires Shaped(r, l) && FitsIn(e, l)
    ensures Shaped(r', l)
  {
    var previous := r.slots[r.next];
    var slot := Slot(Overwritten(previous.sender, e.username), Overwritten(previous.message, e.text), e.time);
    Ring(r.slots[r.next := slot], (r.next + 1) % MAX_HISTORY,
         if r.count + 1 < MAX_HISTORY then r.count + 1 else MAX_HISTORY)
  }

  function AddAll(l: Limits, entries: seq<Entry>): (r: Ring)
    requires forall i :: 0 <= i < |entries| ==> FitsIn(entries[i], l)
    ensures Shaped(r, l)
  {
    if entries == [] then Empty(l) else Add(AddAll(l, entries[..|entries| - 1]), l, entries[|entries| - 1])
  }

  /** Where reading starts: at the oldest slot of a full ring, else at the first. */
  function Oldest(r: Ring): nat {
    if r.count == MAX_HISTORY then r.next else 0
  }

  function History(r: Ring, l: Limits): seq<Slot>
    requires Shaped(r, l)
  {
    seq(r.count, i requires 0 <= i < r.count => r.slots[(Oldest(r) + i) % MAX_HISTORY])
  }

  // ---------------------------------------------------------------- refinement

  /** A message as the history shows it: its own text, padded with zeros. */
  function Padded(e: Entry, l: Limits): Slot
    requires FitsIn(e, l)
  {
    Slot(e.username + Zeros(l.username - |e.username|), e.text + Zeros(l.message - |e.text|), e.time)
  }

  function Max0(n: int): nat { if n < 0 then 0 else n }

  /** The last hundred messages, oldest first. */
  function Recent(entries: seq<Entry>): seq<Entry> {
    entries[Max0(|entries| - 100)..]
  }

  /** The ring is at the right position and each recent message is in its slot. */
  ghost predicate Holds(r: Ring, l: Limits, entries: seq<Entry>)
    requires Shaped(r, l) && forall i :: 0 <= i < |entries| ==> FitsIn(entries[i], l)
  {
    && r.next == |entries| % MAX_HISTORY
    && r.count == (if |entries| < MAX_HISTORY then |entries| else MAX_HISTORY)
    && forall j :: 0 <= j < |entries| && |entries| - MAX_HISTORY <= j ==>
         r.slots[j % MAX_HISTORY] == Padded(entries[j], l)
  }

  lemma SlotsDiffer(i: nat, j: nat)
    requires i < j < i + MAX_HISTORY
    ensures i % MAX_HISTORY != j % MAX_HISTORY
  {
  }

  lemma AddHolds(r: Ring, l: Limits, entries: seq<Entry>, e: Entry)
    requires Shaped(r, l) && FitsIn(e, l) && forall i :: 0 <= i < |entries| ==> FitsIn(entries[i], l)
    requires Holds(r, l, entries)
    ensures Holds(Add(r, l, e), l, entries + [e])
  {
    var n := |entries|;
    forall j | 0 <= j <= n && n + 1 - MAX_HISTORY <= j
      ensures Add(r, l, e).slots[j % MAX_HISTORY] == Padded((entries + [e])[j], l)
    {
      if j < n { SlotsDiffer(j, n); }
    }
  }

  lemma {:induction false} AddAllHolds(l: Limits, entries: seq<Entry>)
    requires forall i :: 0 <= i < |entries| ==> FitsIn(entries[i], l)
    ensures Holds(AddAll(l, entries), l, entries)
    decreases |entries|
  {
    if entries != [] {
      var init, last := entries[..|entries| - 1], entries[|entries| - 1];
      AddAllHolds(l, init);
      AddHolds(AddAll(l, init), l, init, last);
      assert init + [last] == entries;
    }
  }

  /** Reading `i` slots past the oldest reaches the i-th of the recent messages. */
  lemma ReadPosition(n: nat, i: nat)
    requires i < MAX_HISTORY <= n
    ensures (n % MAX_HISTORY + i) % MAX_HISTORY == (n - MAX_HISTORY + i) % MAX_HISTORY
  {
  }

  lemma HistoryEntry(r: Ring, l: Limits, entries: seq<Entry>, i: nat)
    requires Shaped(r, l) && forall i :: 0 <= i < |entries| ==> FitsIn(entries[i], l)
    requires Holds(r, l, entries) && i < r.count
    ensures r.count == |Recent(entries)|
    ensures History(r, l)[i] == Padded(Recent(entries)[i], l)
  {
    var j := Max0(|entries| - MAX_HISTORY) + i;
    assert Recent(entries)[i] == entries[j];
    if |entries| >= MAX_HISTORY { ReadPosition(|entries|, i); }
    assert (Oldest(r) + i) % MAX_HISTORY == j % MAX_HISTORY;
  }

  /** After any messages, the history is the last hundred of them in sending order, each
      exactly as sent and zero from there on, whatever the slot held before. */
  lemma HistoryIsRecent(l: Limits, entries: seq<Entry>)
    requires forall i :: 0 <= i < |entries| ==> FitsIn(entries[i], l)
    ensures var h, recent := History(AddAll(l, entries), l), Recent(entries);
            |h| == |recent| && forall i :: 0 <= i < |h| ==> h[i] == Padded(recent[i], l)
  {
    var r := AddAll(l, entries);
    AddAllHolds(l, entries);
    forall i | 0 <= i < r.count ensures History(r, l)[i] == Padded(Recent(entries)[i], l) {
      HistoryEntry(r, l, entries, i);
    }
  }

  /** A text without zeros can be read back from the slot that shows it. */
  lemma PaddedTextIsIntact(text: string, size: nat, i: nat)
    requires |text| <= size && '\0' !in text
    ensures var shown := Overwritten(Zeros(size), text);
            && shown[..|text|] == text
            && (i < size ==> (shown[i] == '\0' <==> i >= |text|))
  {
  }
}

module ChatRooms {
  import opened ChatHistory

  /** One slot of the ring; the texts are arrays that are never replaced. */
  class ChatMessage {
    const sender: array<char>
    const message: array<char>
    var timestamp: int

    constructor (l: Limits)
      ensures fresh(sender) && fresh(message) && sender != message
      ensures sender[..] == Zeros(l.username) && message[..] == Zeros(l.message) && timestamp == 0
    {
      sender := new char[l.username](_ => '\0');
      message := new char[l.message](_ => '\0');
      timestamp := 0;
    }
  }

  method CopyStringToText(text: array<char>, s: string)
    requires |s| <= text.Length
    modifies text
    ensures text[..] == Overwritten(old(text[..]), s)
  {
    for i := 0 to |s|
      invariant forall j :: 0 <= j < i ==> text[j] == s[j]
    {
      text[i] := s[i];
    }
    for i := |s| to text.Length
      invariant forall j :: 0 <= j < |s| ==> text[j] == s[j]
      invariant forall j :: |s| <= j < i ==> text[j] == '\0'
    {
      text[i] := '\0';
    }
  }

  class ChatRoom {
    const limits: Limits
    const messages: seq<ChatMessage>
    var nextMessageOffset: nat
    var count: nat

    ghost function Texts(): set<array<char>> {
      (set m | m in messages :: m.sender) + (set m | m in messages :: m.message)
    }

    ghost predicate Separate() {
      && (forall i, j :: 0 <= i < j < |messages| ==>
            messages[i] != messages[j] && messages[i].sender != messages[j].sender
            && messages[i].message != messages[j].message)
      && (forall i, j :: 0 <= i < |messages| && 0 <= j < |messages| ==>
            messages[i].sender != messages[j].message)
    }

    ghost function Contents(): Ring
      reads this, messages, Texts()
    {
      Ring(seq(|messages|, i requires 0 <= i < |messages| reads messages, Texts() =>
             Slot(messages[i].sender[..], messages[i].message[..], messages[i].timestamp)),
           nextMessageOffset, count)
    }

    ghost predicate Valid()
      reads this, messages, Texts()
    {
      Separate() && Shaped(Contents(), limits)
    }

    constructor (l: Limits)
      ensures Valid() && limits == l && Contents() == Empty(l)
    {
      limits := l;
      nextMessageOffset, count := 0, 0;
      var slots: seq<ChatMessage> := [];
      for i := 0 to MAX_HISTORY
        invariant |slots| == i
        invariant forall j :: 0 <= j < i ==> fresh(slots[j]) && fresh(slots[j].sender) && fresh(slots[j].message)
        invariant forall j :: 0 <= j < i ==>
                    && slots[j].sender[..] == Zeros(l.username) && slots[j].message[..] == Zeros(l.message)
                    && slots[j].timestamp == 0
        invariant forall j, k :: 0 <= j < k < i ==>
                    slots[j] != slots[k] && slots[j].sender != slots[k].sender && slots[j].message != slots[k].message
        invariant forall j, k :: 0 <= j < i && 0 <= k < i ==> slots[j].sender != slots[k].message
      {
        var m := new ChatMessage(l);
        slots := slots + [m];
      }
      messages := slots;
      new;
      assert Contents().slots == Empty(l).slots;
    }

    method AddUserMessage(username: string, text: string, timestamp: int)
      requires Valid() && FitsIn(Entry(username, text, timestamp), limits)
      modifies this, messages[nextMessageOffset], messages[nextMessageOffset].sender, messages[nextMessageOffset].message
      ensures Valid() && Contents() == Add(old(Contents()), limits, Entry(username, text, timestamp))
    {
      ghost var before := Contents();
      ghost var at := nextMessageOffset;
      count := if count + 1 < MAX_HISTORY then count + 1 else MAX_HISTORY;
      var m := messages[nextMessageOffset];
      nextMessageOffset := (nextMessageOffset + 1) % MAX_HISTORY;
      assert before.slots[at] == Slot(m.sender[..], m.message[..], m.timestamp);
      CopyStringToText(m.message, text);
      CopyStringToText(m.sender, username);
      m.timestamp := timestamp;
      forall i | 0 <= i < |messages| && i != at ensures Contents().slots[i] == before.slots[i] {
        assert messages[i] != m;
      }
      assert Contents().slots == Add(before, limits, Entry(username, text, timestamp)).slots;
    }

    method GetChatHistory() returns (history: seq<Slot>)
      requires Valid()
      ensures Valid() && history == History(Contents(), limits)
    {
      var index := if count == MAX_HISTORY then nextMessageOffset else 0;
      history := [];
      for i := 0 to count
        invariant index == (Oldest(Contents()) + i) % MAX_HISTORY
        invariant history == History(Contents(), limits)[..i]
      {
        var m := messages[index];
        history := history + [Slot(m.sender[..], m.message[..], m.timestamp)];
        index := (index + 1) % |messages|;
      }
    }
  }
}
