/** The per-agent inbox file, trimmed to its last fifty lines, and the learnings buffer.
    Source: server/agents/agent-inbox.ts, server/agents/agent-runner.ts. */
module AgentInbox {
  import opened Collections

  const MAX_INBOX_ENTRIES: nat := 50
  const MAX_BRIEF_CHARS: nat := 2000

  datatype Entry = Entry(from: string, timestamp: string, priority: string, brief: string, read: bool)

  /** A line of the JSONL file; one that does not parse is kept as it is. */
  datatype Line = Brief(entry: Entry) | Junk(text: string)

  // ----- slices -----

  /** `s.slice(-n)` for a positive n. */
  function Last<T>(s: seq<T>, n: nat): seq<T> {
    if |s| <= n then s else s[|s| - n..]
  }

  lemma LastIs<T>(s: seq<T>, n: nat)
    ensures |Last(s, n)| == if |s| < n then |s| else n
    ensures forall k :: 0 <= k < |Last(s, n)| ==> Last(s, n)[k] == s[|s| - |Last(s, n)| + k]
  {
  }

  /** `s.slice(-limit)` for any limit: zero keeps everything, a negative one drops from the front. */
  function SliceFromEnd<T>(s: seq<T>, limit: int): seq<T> {
    if limit > 0 then Last(s, limit)
    else if -limit <= |s| then s[-limit..]
    else []
  }

  /** A limit is kept exactly if it is positive, or there is nothing to read: zero reads everything. What is read
      is the end of what there is: as many entries as the limit says, or, if it is negative, all but that many. */
  lemma LimitIsKeptIff<T>(s: seq<T>, limit: int)
    ensures limit >= 0 ==> (|SliceFromEnd(s, limit)| <= limit <==> limit > 0 || s == [])
    ensures SliceFromEnd(s, 0) == s
    ensures limit > 0 ==> SliceFromEnd(s, limit) == s[if |s| > limit then |s| - limit else 0..]
    ensures limit < 0 ==> SliceFromEnd(s, limit) == s[if |s| > -limit then -limit else |s|..]
  {
  }

  /** Trimming after every append is the same as trimming once at the end. */
  lemma LastOfLast<T>(s: seq<T>, more: seq<T>, n: nat)
    ensures Last(Last(s, n) + more, n) == Last(s + more, n)
  {
  }

  // ----- reading marks -----

  function Marked(l: Line, stamps: set<string>): Line {
    match l
    case Junk(_) => l
    case Brief(e) => if e.timestamp in stamps then Brief(e.(read := true)) else l
  }

  function MarkedAll(lines: seq<Line>, stamps: set<string>): (r: seq<Line>)
    ensures |r| == |lines| && forall i :: 0 <= i < |lines| ==> r[i] == Marked(lines[i], stamps)
  {
    seq(|lines|, i requires 0 <= i < |lines| => Marked(lines[i], stamps))
  }

  /** Marking and trimming commute. */
  lemma MarkThenTrim(lines: seq<Line>, stamps: set<string>, n: nat)
    ensures Last(MarkedAll(lines, stamps), n) == MarkedAll(Last(lines, n), stamps)
  {
  }

  function Entries(lines: seq<Line>): seq<Entry> {
    if lines == [] then []
    else
      var n := |lines| - 1;
      Entries(lines[..n]) + (if lines[n].Brief? then [lines[n].entry] else [])
  }

  function Unread(entries: seq<Entry>): seq<Entry> {
    if entries == [] then []
    else
      var n := |entries| - 1;
      Unread(entries[..n]) + (if entries[n].read then [] else [entries[n]])
  }

  /** The entries are those of the lines at these places, in the order of the file; with `unreadOnly`, the unread
      ones among them. No other line has one. */
  ghost predicate ListedAt(lines: seq<Line>, unreadOnly: bool, entries: seq<Entry>, at: seq<int>) {
    && |at| == |entries|
    && (forall j, k :: 0 <= j < k < |at| ==> at[j] < at[k])
    && (forall k :: 0 <= k < |at| ==> 0 <= at[k] < |lines| && lines[at[k]] == Brief(entries[k]))
    && forall i :: 0 <= i < |lines| ==> (i in at <==> lines[i].Brief? && (unreadOnly ==> !lines[i].entry.read))
  }

  function Collected(lines: seq<Line>, unreadOnly: bool): seq<Entry> {
    if unreadOnly then Unread(Entries(lines)) else Entries(lines)
  }

  /** What a read collects before it is cut to the limit. */
  lemma {:induction false} EntriesInOrder(lines: seq<Line>, unreadOnly: bool) returns (at: seq<int>)
    ensures ListedAt(lines, unreadOnly, if unreadOnly then Unread(Entries(lines)) else Entries(lines), at)
  {
    at := [];
    if lines != [] {
      var n := |lines| - 1;
      at := EntriesInOrder(lines[..n], unreadOnly);
      CollectedOneMore(lines, unreadOnly);
      SplitLast(lines);
      if lines[n].Brief? && (unreadOnly ==> !lines[n].entry.read) {
        ListedTake(lines[..n], lines[n].entry, unreadOnly, Collected(lines[..n], unreadOnly), at);
        at := at + [n];
      } else {
        ListedSkip(lines[..n], lines[n], unreadOnly, Collected(lines[..n], unreadOnly), at);
      }
    }
  }

  lemma CollectedOneMore(lines: seq<Line>, unreadOnly: bool)
    requires lines != []
    ensures var n := |lines| - 1;
            Collected(lines, unreadOnly)
            == if lines[n].Brief? && (unreadOnly ==> !lines[n].entry.read) then Collected(lines[..n], unreadOnly) + [lines[n].entry]
               else Collected(lines[..n], unreadOnly)
  {
    var n := |lines| - 1;
    var before := Entries(lines[..n]);
    if lines[n].Brief? {
      UnreadOfOneMore(before, lines[n].entry);
    } else {
      assert Entries(lines) == before;
    }
  }

  lemma ListedSkip(lines: seq<Line>, last: Line, unreadOnly: bool, entries: seq<Entry>, at: seq<int>)
    requires ListedAt(lines, unreadOnly, entries, at) && (last.Brief? ==> unreadOnly && last.entry.read)
    ensures ListedAt(lines + [last], unreadOnly, entries, at)
  {
  }

  lemma ListedTake(lines: seq<Line>, last: Entry, unreadOnly: bool, entries: seq<Entry>, at: seq<int>)
    requires ListedAt(lines, unreadOnly, entries, at) && (unreadOnly ==> !last.read)
    ensures ListedAt(lines + [Brief(last)], unreadOnly, entries + [last], at + [|lines|])
  {
    MembersOfOneMore(at, |lines|);
  }

  function Stamps(entries: seq<Entry>): set<string> {
    set e | e in entries :: e.timestamp
  }

  // ----- the steps, on a log that is never trimmed -----

  datatype Step = Deliver(from: string, to: string, brief: string, priority: string, timestamp: string)
                | MarkRead(stamps: seq<string>)
                | MarkAllRead

  predicate Accepted(to: string, from: string, brief: string) {
    from != "" && to != "" && brief != "" && from != "agent:" + to
  }

  function NewLine(from: string, brief: string, priority: string, timestamp: string): Line {
    Brief(Entry(from, timestamp, priority, SlicePrefix(brief, MAX_BRIEF_CHARS), false))
  }

  /** The brief is cut to 2000 characters and unread. */
  lemma NewLineIs(from: string, brief: string, priority: string, timestamp: string)
    ensures NewLine(from, brief, priority, timestamp)
         == Brief(Entry(from, timestamp, priority, if |brief| > 2000 then brief[..2000] else brief, false))
  {
  }

  /** The marks of "mark all as read" are those of the unread entries among the last fifty lines. */
  function LogStep(log: seq<Line>, agent: string, step: Step): seq<Line> {
    match step
    case Deliver(from, to, brief, priority, timestamp) =>
      if to == agent && Accepted(to, from, brief) then log + [NewLine(from, brief, priority, timestamp)] else log
    case MarkRead(stamps) => MarkedAll(log, AsSet(stamps))
    case MarkAllRead => MarkedAll(log, Stamps(Unread(Entries(Last(log, MAX_INBOX_ENTRIES)))))
  }

  function AsSet(s: seq<string>): set<string> {
    set x | x in s
  }

  function Log(agent: string, steps: seq<Step>): seq<Line> {
    if steps == [] then [] else LogStep(Log(agent, steps[..|steps| - 1]), agent, steps[|steps| - 1])
  }

  // ----- the file -----

  class Inbox {
    const agent: string
    var created: bool
    var lines: seq<Line>
    /** What the file would hold if it were never trimmed. */
    ghost var log: seq<Line>

    ghost predicate Valid()
      reads this
    {
      lines == Last(log, MAX_INBOX_ENTRIES) && (!created ==> lines == [])
    }

    constructor (agent: string)
      ensures Valid() && log == [] && this.agent == agent
    {
      this.agent := agent;
      created, lines, log := false, [], [];
    }

    /** Append, then trim. Empty briefs and briefs to oneself are refused. */
    method DeliverAgentBrief(from: string, to: string, brief: string, priority: string, timestamp: string)
      returns (delivered: bool)
      requires Valid() && to == agent
      modifies this
      ensures Valid() && log == LogStep(old(log), agent, Deliver(from, to, brief, priority, timestamp))
      ensures delivered <==> from != "" && to != "" && brief != "" && from != "agent:" + to
      ensures !delivered ==> log == old(log)
      ensures delivered ==>
        log == old(log) + [Brief(Entry(from, timestamp, priority, if |brief| > 2000 then brief[..2000] else brief, false))]
    {
      if from == "" || to == "" || brief == "" || from == "agent:" + to {
        return false;
      }
      var line := NewLine(from, brief, priority, timestamp);
      NewLineIs(from, brief, priority, timestamp);
      LastOfLast(log, [line], MAX_INBOX_ENTRIES);
      created := true;
      lines := lines + [line];
      log := log + [line];
      if |lines| > MAX_INBOX_ENTRIES {
        lines := lines[|lines| - MAX_INBOX_ENTRIES..];
      }
      return true;
    }

    method ReadInbox(limit: int, unreadOnly: bool) returns (entries: seq<Entry>)
      requires Valid()
      ensures entries == SliceFromEnd(if unreadOnly then Unread(Entries(lines)) else Entries(lines), limit)
    {
      if !created {
        return [];
      }
      entries := [];
      for i := 0 to |lines|
        invariant entries == Entries(lines[..i])
      {
        assert lines[..i + 1][..i] == lines[..i];
        if lines[i].Brief? {
          entries := entries + [lines[i].entry];
        }
      }
      assert lines[..|lines|] == lines;
      if unreadOnly {
        entries := Unread(entries);
      }
      entries := SliceFromEnd(entries, limit);
    }

    method MarkInboxAsRead(stamps: seq<string>)
      requires Valid()
      modifies this
      ensures Valid() && log == LogStep(old(log), agent, MarkRead(stamps))
      ensures lines == MarkedAll(old(lines), AsSet(stamps))
    {
      MarkThenTrim(log, AsSet(stamps), MAX_INBOX_ENTRIES);
      log := MarkedAll(log, AsSet(stamps));
      if stamps == [] || !created {
        assert lines == MarkedAll(lines, AsSet(stamps));
        return;
      }
      var updated: seq<Line> := [];
      for i := 0 to |lines|
        invariant updated == MarkedAll(lines[..i], AsSet(stamps))
      {
        updated := updated + [Marked(lines[i], AsSet(stamps))];
      }
      assert lines[..|lines|] == lines;
      lines := updated;
    }

    /** Afterwards nothing in the file is unread. */
    method MarkAllInboxAsRead()
      requires Valid()
      modifies this
      ensures Valid() && log == LogStep(old(log), agent, MarkAllRead)
      ensures |lines| == |old(lines)|
      ensures forall i :: 0 <= i < |lines| ==>
                lines[i] == if old(lines)[i].Brief? then Brief(old(lines)[i].entry.(read := true)) else old(lines)[i]
    {
      var unread := ReadInbox(10000, true);
      FewEntries(lines);
      TimestampsAreStamps(unread);
      AllAreMarked(lines);
      MarkInboxAsRead(Timestamps(unread));
    }
  }

  function Timestamps(entries: seq<Entry>): (r: seq<string>) {
    seq(|entries|, i requires 0 <= i < |entries| => entries[i].timestamp)
  }

  lemma TimestampsAreStamps(entries: seq<Entry>)
    ensures AsSet(Timestamps(entries)) == Stamps(entries)
  {
    var r := Timestamps(entries);
    forall t | t in Stamps(entries) ensures t in AsSet(r) {
      var e :| e in entries && e.timestamp == t;
      var i :| 0 <= i < |entries| && entries[i] == e;
      assert r[i] == t;
    }
  }

  lemma {:induction false} EntriesFit(lines: seq<Line>)
    ensures |Unread(Entries(lines))| <= |Entries(lines)| <= |lines|
  {
    if lines != [] {
      EntriesFit(lines[..|lines| - 1]);
      UnreadFits(Entries(lines));
    }
  }

  lemma {:induction false} UnreadFits(entries: seq<Entry>)
    ensures |Unread(entries)| <= |entries|
  {
    if entries != [] {
      UnreadFits(entries[..|entries| - 1]);
    }
  }

  lemma FewEntries(lines: seq<Line>)
    requires |lines| <= MAX_INBOX_ENTRIES
    ensures SliceFromEnd(Unread(Entries(lines)), 10000) == Unread(Entries(lines))
  {
    EntriesFit(lines);
  }

  lemma {:induction false} UnreadAreStamped(entries: seq<Entry>, e: Entry)
    requires e in entries && !e.read
    ensures e.timestamp in Stamps(Unread(entries))
  {
    var n := |entries| - 1;
    assert entries == entries[..n] + [entries[n]];
    if e == entries[n] {
      assert e in Unread(entries);
    } else {
      UnreadAreStamped(entries[..n], e);
      var x :| x in Unread(entries[..n]) && x.timestamp == e.timestamp;
      assert x in Unread(entries);
    }
  }

  lemma {:induction false} EntryOf(lines: seq<Line>, i: nat)
    requires i < |lines| && lines[i].Brief?
    ensures lines[i].entry in Entries(lines)
  {
    if i < |lines| - 1 {
      EntryOf(lines[..|lines| - 1], i);
    }
  }

  lemma UnreadOfOneMore(entries: seq<Entry>, entry: Entry)
    ensures Unread(entries + [entry]) == Unread(entries) + if entry.read then [] else [entry]
  {
    assert (entries + [entry])[..|entries|] == entries;
  }

  lemma {:induction false} AllReadMeansNoUnread(lines: seq<Line>)
    requires forall i :: 0 <= i < |lines| && lines[i].Brief? ==> lines[i].entry.read
    ensures Unread(Entries(lines)) == []
  {
    if lines != [] {
      var n := |lines| - 1;
      AllReadMeansNoUnread(lines[..n]);
      if lines[n].Brief? {
        UnreadOfOneMore(Entries(lines[..n]), lines[n].entry);
      } else {
        assert Entries(lines) == Entries(lines[..n]);
      }
    }
  }

  lemma UnreadAreMarked(lines: seq<Line>)
    ensures forall i :: 0 <= i < |lines| && lines[i].Brief? ==>
              lines[i].entry.read || lines[i].entry.timestamp in Stamps(Unread(Entries(lines)))
  {
    forall i | 0 <= i < |lines| && lines[i].Brief? && !lines[i].entry.read
      ensures lines[i].entry.timestamp in Stamps(Unread(Entries(lines)))
    {
      EntryOf(lines, i);
      UnreadAreStamped(Entries(lines), lines[i].entry);
    }
  }

  lemma AllAreMarked(lines: seq<Line>)
    ensures forall i :: 0 <= i < |lines| ==>
              Marked(lines[i], Stamps(Unread(Entries(lines))))
              == if lines[i].Brief? then Brief(lines[i].entry.(read := true)) else lines[i]
  {
    UnreadAreMarked(lines);
  }

  /** Marking by timestamps sets the mark of exactly the entries that have one of them, and nothing else. */
  lemma MarkedIs(lines: seq<Line>, stamps: set<string>)
    ensures |MarkedAll(lines, stamps)| == |lines|
    ensures forall i :: 0 <= i < |lines| ==>
              MarkedAll(lines, stamps)[i]
              == if lines[i].Brief? && lines[i].entry.timestamp in stamps then Brief(lines[i].entry.(read := true)) else lines[i]
  {
  }

  /** Marking by the timestamps of the unread entries leaves nothing unread. */
  lemma NothingLeftUnread(lines: seq<Line>)
    ensures Unread(Entries(MarkedAll(lines, Stamps(Unread(Entries(lines)))))) == []
  {
    var marked := MarkedAll(lines, Stamps(Unread(Entries(lines))));
    UnreadAreMarked(lines);
    AllReadMeansNoUnread(marked);
  }

  // ----- every interleaving -----

  /** What the steps do to a trimmed file, without remembering what was trimmed away. */
  function FileStep(file: seq<Line>, agent: string, step: Step): seq<Line> {
    Last(LogStep(file, agent, step), MAX_INBOX_ENTRIES)
  }

  function File(agent: string, steps: seq<Step>): seq<Line> {
    if steps == [] then [] else FileStep(File(agent, steps[..|steps| - 1]), agent, steps[|steps| - 1])
  }

  /** After any interleaving of deliveries and marks the file is the last fifty lines of the log that
      was never trimmed, with the same marks. */
  lemma {:induction false} FileRefinesLog(agent: string, steps: seq<Step>)
    ensures File(agent, steps) == Last(Log(agent, steps), 50)
  {
    if steps != [] {
      var n := |steps| - 1;
      var log := Log(agent, steps[..n]);
      FileRefinesLog(agent, steps[..n]);
      match steps[n] {
        case Deliver(from, to, brief, priority, timestamp) =>
          LastOfLast(log, [NewLine(from, brief, priority, timestamp)], MAX_INBOX_ENTRIES);
        case MarkRead(stamps) =>
          MarkThenTrim(log, AsSet(stamps), MAX_INBOX_ENTRIES);
        case MarkAllRead =>
          MarkThenTrim(log, Stamps(Unread(Entries(Last(log, MAX_INBOX_ENTRIES)))), MAX_INBOX_ENTRIES);
      }
    }
  }

  // ----- the learnings buffer of an agent's memory -----

  const MAX_LEARNINGS: nat := 50

  /** `[...(memory.learnings ?? []), ...learnings].slice(-50)`, when there is anything to add. */
  function Learn(memory: seq<string>, learnings: seq<string>): seq<string> {
    if learnings == [] then memory else Last(memory + learnings, MAX_LEARNINGS)
  }

  function LearnAll(batches: seq<seq<string>>): seq<string> {
    if batches == [] then [] else Learn(LearnAll(batches[..|batches| - 1]), batches[|batches| - 1])
  }

  function Everything(batches: seq<seq<string>>): seq<string> {
    if batches == [] then [] else Everything(batches[..|batches| - 1]) + batches[|batches| - 1]
  }

  /** The buffer always holds the last fifty of everything ever learned. */
  lemma {:induction false} BufferIsLastOfEverything(batches: seq<seq<string>>)
    ensures LearnAll(batches) == Last(Everything(batches), 50)
  {
    if batches != [] {
      var n := |batches| - 1;
      BufferIsLastOfEverything(batches[..n]);
      LastOfLast(Everything(batches[..n]), batches[n], MAX_LEARNINGS);
      if batches[n] == [] {
        assert Everything(batches) == Everything(batches[..n]);
      }
    }
  }
}
