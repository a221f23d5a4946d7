/**
 DNS messages as section 4 of RFC 1035 lays them out, read and spelled without any function of
 the handler: what a client finds in an answer, and what it puts into a query.
 */
module DnsReader {
  import opened Bytes

  /** The number that bytes spell, most significant first. */
  function Big(b: seq<byte>): (n: nat)
    ensures |b| == 1 ==> n < 0x100
    ensures |b| == 2 ==> n < 0x1_0000
    ensures |b| == 3 ==> n < 0x100_0000
    ensures |b| == 4 ==> n < 0x1_0000_0000
  {
    if b == [] then 0 else 256 * Big(b[..|b| - 1]) + b[|b| - 1]
  }

  /** An answer record with a compressed name and four bytes of data. */
  datatype Answer = Answer(name: nat, kind: nat, family: nat, ttl: nat, size: nat, address: nat)

  /** The record at `at`: name pointer, TYPE, CLASS, TTL, RDLENGTH and RDATA. */
  function AnswerAt(r: seq<byte>, at: nat): (a: Answer)
    requires at + 16 <= |r|
    ensures a.address < 0x1_0000_0000
  {
    Answer(Big(r[at..at + 2]), Big(r[at + 2..at + 4]), Big(r[at + 4..at + 6]), Big(r[at + 6..at + 10]),
      Big(r[at + 10..at + 12]), Big(r[at + 12..at + 16]))
  }

  /** The header of a reply `r` with `n` answers to the query `q`: same id and questions, a
      response, everything else of the first flag byte as the query has it (the recursion that
      was desired is), recursion available if it was desired, no other sections. */
  predicate Replies(q: seq<byte>, r: seq<byte>, end: nat, n: nat)
    requires 12 <= end <= |q| && end <= |r|
  {
    && r[..2] == q[..2]
    && r[2] >= 128 && r[2] % 128 == q[2] % 128
    && r[3] % 128 == q[3] % 128 && (r[3] >= 128 <==> q[3] >= 128 || q[2] % 2 == 1)
    && r[4..6] == q[4..6]
    && Big(r[6..8]) == n && Big(r[8..10]) == 0 && Big(r[10..12]) == 0
    && r[12..end] == q[12..end]
  }

  /** A question: the labels of its name, its type and its class. */
  datatype Question = Question(labels: seq<Name>, kind: nat, family: nat)

  /** Labels are not empty and their lengths fit a byte, the two codes two bytes. */
  ghost predicate Sendable(x: Question) {
    (forall l :: l in x.labels ==> 0 < |l| < 256) && x.kind < 0x1_0000 && x.family < 0x1_0000
  }

  function SpellName(labels: seq<Name>): (b: seq<byte>)
    requires forall l :: l in labels ==> 0 < |l| < 256
    ensures |b| > 0
  {
    if labels == [] then [0] else [|labels[0]|] + labels[0] + SpellName(labels[1..])
  }

  function SpellQuestion(x: Question): (b: seq<byte>)
    requires Sendable(x)
    ensures |b| > 4
  {
    SpellName(x.labels) + [x.kind / 256, x.kind % 256, x.family / 256, x.family % 256]
  }

  function SpellQuestions(xs: seq<Question>): seq<byte>
    requires forall x :: x in xs ==> Sendable(x)
  {
    if xs == [] then [] else SpellQuestion(xs[0]) + SpellQuestions(xs[1..])
  }

  /** The labels as one text, dots between them. */
  function Joined(labels: seq<Name>): Name {
    if labels == [] then [] else if |labels| == 1 then labels[0] else labels[0] + [46] + Joined(labels[1..])
  }

  // ---------------------------------------------------------------- numbers

  lemma Big2(b: seq<byte>)
    requires |b| == 2
    ensures Big(b) == b[0] as int * 0x100 + b[1]
  {
    assert b[..1][..0] == [];
    assert Big(b[..1]) == 256 * Big([]) + b[0];
  }

  lemma Big4(b: seq<byte>)
    requires |b| == 4
    ensures Big(b) == b[0] as int * 0x100_0000 + b[1] as int * 0x1_0000 + b[2] as int * 0x100 + b[3]
  {
    assert b[..3][..2] == b[..2];
    Big2(b[..2]);
    assert Big(b[..3]) == 256 * Big(b[..2]) + b[2];
  }
}
