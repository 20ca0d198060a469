/** Messages of a group chat as the engage loop judges them. */
module Candidates {
  import opened Prelude
  import opened Text

  /** How strongly a message addresses the agent, weakest first. */
  datatype Kind = NoAddress | NameOnly | Mention | ReplyToAgent {
    function Rank(): nat {
      match this
      case NoAddress => 0
      case NameOnly => 1
      case Mention => 2
      case ReplyToAgent => 3
    }
  }

  /** A reply to the agent counts more than a mention, a mention more than the bare name. */
  lemma KindsInOrder(i: nat, j: nat)
    requires i < j < 4
    ensures var kinds := [NoAddress, NameOnly, Mention, ReplyToAgent]; kinds[i].Rank() < kinds[j].Rank()
  {
  }

  /** A forum topic; `None` is the main lane. */
  type Topic = Option<int>

  datatype Candidate = Candidate(
    mid: int, addressed: bool, snippet: string, sender: Option<int>, fromMe: bool,
    kind: Kind, mentionsOther: bool, replyToMe: bool, ts: int, truncated: bool, originalChars: nat,
    topic: Topic, spoolSeq: nat, replyTo: Option<int>, handles: seq<string>)

  /** One durable spool row of a chat; `own` tells that the agent itself wrote it. */
  datatype Row = Row(own: bool, cand: Candidate)

  predicate IsSlashCommand(text: string) {
    var t := LStrip(text);
    t != "" && t[0] == '/'
  }

  /** Own messages and slash commands never reach the decider. */
  predicate Filtered(row: Row) {
    row.own || IsSlashCommand(row.cand.snippet)
  }

  function FromRows(rows: seq<Row>): seq<Candidate> {
    if rows == [] then []
    else if Filtered(rows[0]) then FromRows(rows[1..])
    else [rows[0].cand] + FromRows(rows[1..])
  }

  lemma {:induction false} FromRowsMember(rows: seq<Row>, c: Candidate)
    ensures c in FromRows(rows) <==> exists r :: r in rows && !Filtered(r) && r.cand == c
  {
    if rows != [] {
      FromRowsMember(rows[1..], c);
      assert rows == [rows[0]] + rows[1..];
      if !Filtered(rows[0]) && rows[0].cand == c { assert rows[0] in rows; }
      if r :| r in rows[1..] && !Filtered(r) && r.cand == c { assert r in rows; }
    }
  }

  lemma {:induction false} LStripOf(before: string, rest: string)
    requires AllSpace(before) && (rest == "" || !IsSpace(rest[0]))
    ensures LStrip(before + rest) == rest
  {
    if before == "" {
      assert before + rest == rest;
    } else {
      LStripOf(before[1..], rest);
      assert (before + rest)[1..] == before[1..] + rest;
    }
  }

  /** Only the agent's own messages and those whose first character besides white space is a slash are kept back. */
  lemma FilteredExactly(row: Row, before: string, rest: string)
    requires row.cand.snippet == before + rest && AllSpace(before) && (rest == "" || !IsSpace(rest[0]))
    ensures Filtered(row) <==> row.own || (rest != "" && rest[0] == '/')
  {
    LStripOf(before, rest);
  }

  /** Chat order: by time, then by message id. */
  predicate Earlier(a: Candidate, b: Candidate) {
    a.ts < b.ts || (a.ts == b.ts && a.mid < b.mid)
  }

  function ChatOrder(): (Candidate, Candidate) -> bool {
    (a: Candidate, b: Candidate) => !Earlier(b, a)
  }

  /** Scheduling order inside one topic: by spool sequence, then by chat order. */
  function SpoolOrder(): (Candidate, Candidate) -> bool {
    (a: Candidate, b: Candidate) =>
      a.spoolSeq < b.spoolSeq || (a.spoolSeq == b.spoolSeq && !Earlier(b, a))
  }
}
