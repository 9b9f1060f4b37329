/**
  The bytes on the wire. No message carries its length: each end relies on reading exactly the sizes the
  other writes, 1, 4, 64, 4, 4 bytes downstream and 1, 4, 4, 1 upstream in every round.

  An int is sent as its four bytes in host order, here least significant first.
*/
module Wire {
  import opened Protocol
  import opened Machine

  type Octet = b: int | 0 <= b < 256

  /** What an end expects next: a char, an int, or sixteen ints. */
  datatype Kind = OneByte | OneWord | SixteenWords

  function Size(k: Kind): nat {
    match k
    case OneByte => 1
    case OneWord => 4
    case SixteenWords => 64
  }

  /** The sort of contents a program hands to send(), which fixes how many bytes are written. */
  function KindOf(b: Payload): Kind {
    match b
    case Byte(_) => OneByte
    case Word(_) => OneWord
    case Order(_) => SixteenWords
  }

  predicate Sendable(b: Payload) {
    match b
    case Byte(c) => c as int < 256
    case Word(n) => IsInt32(n)
    case Order(g) => |g| == 16 && forall i :: 0 <= i < 16 ==> IsInt32(g[i])
  }

  predicate AllSendable(bodies: seq<Payload>) {
    forall i :: 0 <= i < |bodies| ==> Sendable(bodies[i])
  }

  // ---------------------------------------------------------------- one int

  function WordBytes(n: int): (s: seq<Octet>)
    requires IsInt32(n)
    ensures |s| == 4
  {
    var u := if n < 0 then n + 0x1_0000_0000 else n;
    [u % 256, u / 256 % 256, u / 65536 % 256, u / 16777216]
  }

  /** The four bytes are the number modulo 2 to the 32, least significant first. */
  lemma WordBytesValue(n: int)
    requires IsInt32(n)
    ensures var s := WordBytes(n);
            s[0] as int + 256 * (s[1] as int) + 65536 * (s[2] as int) + 16777216 * (s[3] as int)
              == if n < 0 then n + 0x1_0000_0000 else n
  {
    var u := if n < 0 then n + 0x1_0000_0000 else n;
    var a, b, c := u / 256, u / 65536, u / 16777216;
    assert b == a / 256 && c == b / 256;
    assert u == u % 256 + 256 * (a % 256 + 256 * (b % 256 + 256 * c));
  }

  function BytesWord(s: seq<Octet>): (n: int)
    requires |s| == 4
    ensures IsInt32(n)
  {
    var u: int := s[0] as int + 256 * (s[1] as int) + 65536 * (s[2] as int) + 16777216 * (s[3] as int);
    if u < 0x8000_0000 then u else u - 0x1_0000_0000
  }

  lemma WordRoundTrip(n: int)
    requires IsInt32(n)
    ensures BytesWord(WordBytes(n)) == n
  {
    WordBytesValue(n);
  }

  function WordsBytes(g: seq<int>): (s: seq<Octet>)
    requires forall i :: 0 <= i < |g| ==> IsInt32(g[i])
    ensures |s| == 4 * |g|
  {
    if g == [] then [] else WordBytes(g[0]) + WordsBytes(g[1..])
  }

  function BytesWords(s: seq<Octet>): (g: seq<int>)
    requires |s| % 4 == 0
    ensures 4 * |g| == |s|
    decreases |s|
  {
    if s == [] then [] else [BytesWord(s[..4])] + BytesWords(s[4..])
  }

  lemma {:induction false} WordsRoundTrip(g: seq<int>)
    requires forall i :: 0 <= i < |g| ==> IsInt32(g[i])
    ensures BytesWords(WordsBytes(g)) == g
  {
    if g != [] {
      WordRoundTrip(g[0]);
      WordsRoundTrip(g[1..]);
      var s := WordsBytes(g);
      assert s[..4] == WordBytes(g[0]) && s[4..] == WordsBytes(g[1..]);
    }
  }

  // ---------------------------------------------------------------- one message

  function Encode(b: Payload): (s: seq<Octet>)
    requires Sendable(b)
    ensures |s| == Size(KindOf(b))
  {
    match b
    case Byte(c) => [c as int]
    case Word(n) => WordBytes(n)
    case Order(g) => WordsBytes(g)
  }

  function Decode(k: Kind, s: seq<Octet>): Payload
    requires |s| == Size(k)
  {
    match k
    case OneByte => Byte(s[0] as char)
    case OneWord => Word(BytesWord(s))
    case SixteenWords => Order(BytesWords(s))
  }

  lemma MessageRoundTrip(b: Payload)
    requires Sendable(b)
    ensures Decode(KindOf(b), Encode(b)) == b
  {
    match b
    case Byte(_) =>
    case Word(n) => WordRoundTrip(n);
    case Order(g) => WordsRoundTrip(g);
  }

  // ---------------------------------------------------------------- the stream

  /** Everything one end has written, in one piece. */
  function Written(bodies: seq<Payload>): seq<Octet>
    requires AllSendable(bodies)
  {
    if bodies == [] then [] else Encode(bodies[0]) + Written(bodies[1..])
  }

  function Joined(chunks: seq<seq<Octet>>): seq<Octet> {
    if chunks == [] then [] else chunks[0] + Joined(chunks[1..])
  }

  /** How many of the messages lie wholly within the first p bytes written. */
  function Whole(bodies: seq<Payload>, p: int): (n: nat)
    ensures n <= |bodies|
  {
    if bodies == [] || p < Size(KindOf(bodies[0])) then 0
    else 1 + Whole(bodies[1..], p - Size(KindOf(bodies[0])))
  }

  /** All of them, once everything written has come through. */
  lemma {:induction false} WholeOfEverything(bodies: seq<Payload>)
    requires AllSendable(bodies)
    ensures Whole(bodies, |Written(bodies)|) == |bodies|
  {
    if bodies != [] { WholeOfEverything(bodies[1..]); }
  }

  /**
    The reading end, which asks for messages of these kinds one after another. Bytes arrive in chunks of any
    size; a receive waits until its whole length is there and takes exactly that. The result is what has been
    read when nothing more arrives.
  */
  function ReadAll(kinds: seq<Kind>, buffer: seq<Octet>, chunks: seq<seq<Octet>>): seq<Payload>
    decreases |kinds| + |chunks|
  {
    if kinds == [] then []
    else
      var n := Size(kinds[0]);
      if |buffer| >= n then [Decode(kinds[0], buffer[..n])] + ReadAll(kinds[1..], buffer[n..], chunks)
      else if chunks == [] then []
      else ReadAll(kinds, buffer + chunks[0], chunks[1..])
  }

  /** As far as both go, the reader asks for what the writer writes. */
  predicate SameKinds(kinds: seq<Kind>, bodies: seq<Payload>) {
    forall i :: 0 <= i < |kinds| && i < |bodies| ==> kinds[i] == KindOf(bodies[i])
  }

  function Least(a: nat, b: nat): nat {
    if a < b then a else b
  }

  /**
    Wherever the stream breaks off, in the middle of a message too, and however its bytes are cut and merged
    under way, the reader gets the very messages written, as many as came through whole and as it asked for.
  */
  lemma {:induction false} StreamRoundTrip(kinds: seq<Kind>, bodies: seq<Payload>, p: nat,
                                           buffer: seq<Octet>, chunks: seq<seq<Octet>>)
    requires AllSendable(bodies) && SameKinds(kinds, bodies) && p <= |Written(bodies)|
    requires buffer + Joined(chunks) == Written(bodies)[..p]
    ensures ReadAll(kinds, buffer, chunks) == bodies[..Least(|kinds|, Whole(bodies, p))]
    decreases |kinds| + |chunks|
  {
    hide Decode, KindOf, Written, Joined, AllSendable;
    if kinds != [] {
      if bodies != [] && |buffer| >= Size(kinds[0]) {
        var n := Size(kinds[0]);
        TakeOne(kinds[0], bodies, p, buffer, Joined(chunks));
        StreamRoundTrip(kinds[1..], bodies[1..], p - n, buffer[n..], chunks);
        OneMore(bodies, Least(|kinds| - 1, Whole(bodies[1..], p - n)));
      } else if chunks != [] {
        JoinOne(buffer, chunks);
        StreamRoundTrip(kinds, bodies, p, buffer + chunks[0], chunks[1..]);
      } else {
        NothingMore(kinds[0], bodies, p, buffer);
      }
    }
  }

  /** A receive that has its whole length takes the first message, and the rest of the stream is left. */
  lemma TakeOne(k: Kind, bodies: seq<Payload>, p: nat, buffer: seq<Octet>, more: seq<Octet>)
    requires bodies != [] && AllSendable(bodies) && k == KindOf(bodies[0])
    requires p <= |Written(bodies)| && buffer + more == Written(bodies)[..p] && |buffer| >= Size(k)
    ensures Decode(k, buffer[..Size(k)]) == bodies[0] && Size(k) <= p
    ensures AllSendable(bodies[1..]) && p - Size(k) <= |Written(bodies[1..])|
    ensures buffer[Size(k)..] + more == Written(bodies[1..])[..p - Size(k)]
  {
    hide Encode, Decode, Sendable;
    CutFront(buffer, more, Encode(bodies[0]), Written(bodies[1..]), p);
    MessageRoundTrip(bodies[0]);
  }

  lemma JoinOne(buffer: seq<Octet>, chunks: seq<seq<Octet>>)
    requires chunks != []
    ensures (buffer + chunks[0]) + Joined(chunks[1..]) == buffer + Joined(chunks)
  {
  }

  /** When nothing more arrives, what is in the buffer is all there is, and it is too short for a message. */
  lemma NothingMore(k: Kind, bodies: seq<Payload>, p: nat, buffer: seq<Octet>)
    requires AllSendable(bodies) && p <= |Written(bodies)| && buffer + Joined([]) == Written(bodies)[..p]
    requires bodies != [] ==> k == KindOf(bodies[0]) && |buffer| < Size(k)
    ensures |buffer| < Size(k) && Whole(bodies, p) == 0
  {
    assert |buffer| == p;
  }

  lemma OneMore(bodies: seq<Payload>, n: nat)
    requires bodies != [] && n < |bodies|
    ensures [bodies[0]] + bodies[1..][..n] == bodies[..n + 1]
  {
  }

  lemma CutFront(buffer: seq<Octet>, more: seq<Octet>, first: seq<Octet>, rest: seq<Octet>, p: nat)
    requires p <= |first| + |rest| && buffer + more == (first + rest)[..p] && |first| <= |buffer|
    ensures |first| <= p && buffer[..|first|] == first && buffer[|first|..] + more == rest[..p - |first|]
  {
    assert (buffer + more)[..|first|] == buffer[..|first|];
    assert (first + rest)[..p][..|first|] == first;
    assert (buffer + more)[|first|..] == buffer[|first|..] + more;
    assert (first + rest)[..p][|first|..] == rest[..p - |first|];
  }
}
