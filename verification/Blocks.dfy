/** Blocks and transactions (src/network/message.rs). */
module Blocks {
  import opened Collections

  /** Collision-free hashing: a digest is what was hashed. */
  datatype Hash =
    | DefaultHash
    | HeaderHash(header: BlockHeader)
    | BytesHash(bytes: seq<byte>)

  /** The bytes of a string or vector, whose length is a machine integer. */
  type Content = bytes: seq<byte> | |bytes| < U64_LIMIT

  datatype BlockHeader = BlockHeader(
    parentHash: Hash,
    timestamp: nat,
    number: nat,
    author: string,
    transactionsRoot: Hash,
    stateRoot: Hash,
    receiptsRoot: Hash)

  datatype Transaction = Transaction(
    nonce: u64,
    from: Content,
    to: Content,
    value: u64,
    data: Content,
    signature: Option<Content>)
  {
    /** Any signature is accepted; a missing one is not. */
    predicate Verify() {
      signature.Some?
    }

    /** Eight bytes per integer and length, one for the tag of the optional signature, and the contents. */
    function SerializedSize(): nat {
      8 + (8 + |from|) + (8 + |to|) + 8 + (8 + |data|)
      + (match signature case None => 1 case Some(bytes) => 1 + 8 + |bytes|)
    }
  }

  datatype Block = Block(
    header: BlockHeader,
    transactions: seq<Transaction>,
    stateRoot: Hash,
    receiptsRoot: Hash)
  {
    /** The body is not hashed: two blocks with one header share a hash. */
    function Hash(): Hash {
      HeaderHash(header)
    }

    predicate Verify() {
      && TransactionsRoot(transactions) == header.transactionsRoot
      && forall i | 0 <= i < |transactions| :: transactions[i].Verify()
    }
  }

  // ---------- Serialisation ----------

  /** Little-endian, in a fixed number of bytes. */
  function Fixed(n: nat, width: nat): (bytes: seq<byte>)
    ensures |bytes| == width
  {
    if width == 0 then [] else [n % 256] + Fixed(n / 256, width - 1)
  }

  /** A string or vector: its length, then its bytes. */
  function Counted(content: Content): seq<byte> {
    Fixed(|content|, 8) + content
  }

  /** An optional vector: a tag byte, then the vector if it is there. */
  function Tagged(content: Option<Content>): seq<byte> {
    match content
    case None => [0]
    case Some(bytes) => [1] + Counted(bytes)
  }

  /** The fields of a transaction one after the other, and `rest` behind them. */
  function SerializedThen(t: Transaction, rest: seq<byte>): seq<byte> {
    Fixed(t.nonce, 8) + (Counted(t.from) + (Counted(t.to)
    + (Fixed(t.value, 8) + (Counted(t.data) + (Tagged(t.signature) + rest)))))
  }

  function Serialized(t: Transaction): seq<byte> {
    SerializedThen(t, [])
  }

  /** What the hasher is fed: one serialised transaction after the other. */
  function Concatenated(transactions: seq<Transaction>): seq<byte> {
    if transactions == [] then [] else SerializedThen(transactions[0], Concatenated(transactions[1..]))
  }

  function TransactionsRoot(transactions: seq<Transaction>): Hash {
    BytesHash(Concatenated(transactions))
  }

  /** The size counted against a block is the length of what is serialised. */
  lemma SizeIsLength(t: Transaction)
    ensures t.SerializedSize() == |Serialized(t)|
  {
  }

  /** Reads back what Fixed writes. */
  function Value(bytes: seq<byte>): nat {
    if bytes == [] then 0 else bytes[0] + 256 * Value(bytes[1..])
  }

  function Limit(width: nat): nat {
    if width == 0 then 1 else 256 * Limit(width - 1)
  }

  lemma {:induction false} FixedReadsBack(n: nat, width: nat)
    requires n < Limit(width)
    ensures Value(Fixed(n, width)) == n
    decreases width
  {
    if width > 0 {
      FixedReadsBack(n / 256, width - 1);
      assert Fixed(n, width)[1..] == Fixed(n / 256, width - 1);
    }
  }

  lemma FrontSplits(p: seq<byte>, q: seq<byte>, x: seq<byte>, y: seq<byte>)
    requires |p| == |q| && p + x == q + y
    ensures p == q && x == y
  {
    assert p == (p + x)[..|p|] == (q + y)[..|q|] == q;
    assert x == (p + x)[|p|..] == (q + y)[|q|..] == y;
  }

  lemma FixedSplits(n: u64, k: u64, x: seq<byte>, y: seq<byte>)
    requires Fixed(n, 8) + x == Fixed(k, 8) + y
    ensures n == k && x == y
  {
    assert Limit(8) == U64_LIMIT by {
      assert Limit(4) == 0x1_0000_0000;
    }
    FrontSplits(Fixed(n, 8), Fixed(k, 8), x, y);
    FixedReadsBack(n, 8);
    FixedReadsBack(k, 8);
  }

  lemma CountedSplits(a: Content, b: Content, x: seq<byte>, y: seq<byte>)
    requires Counted(a) + x == Counted(b) + y
    ensures a == b && x == y
  {
    var p, q := Fixed(|a|, 8), Fixed(|b|, 8);
    assert (p + a) + x == p + (a + x) && (q + b) + y == q + (b + y);
    FixedSplits(|a|, |b|, a + x, b + y);
    FrontSplits(a, b, x, y);
  }

  lemma TagSplits(p: byte, q: byte, x: seq<byte>, y: seq<byte>)
    requires [p] + x == [q] + y
    ensures p == q && x == y
  {
    assert p == ([p] + x)[0] == ([q] + y)[0] == q;
    assert x == ([p] + x)[1..] == ([q] + y)[1..] == y;
  }

  lemma TaggedSplits(a: Option<Content>, b: Option<Content>, x: seq<byte>, y: seq<byte>)
    requires Tagged(a) + x == Tagged(b) + y
    ensures a == b && x == y
  {
    var (p, v) := TaggedParts(a, x);
    var (q, w) := TaggedParts(b, y);
    TagSplits(p, q, v, w);
    if a.Some? {
      CountedSplits(a.value, b.value, x, y);
    }
  }

  /** The tag, and what follows it. */
  function TaggedParts(a: Option<Content>, x: seq<byte>): (r: (byte, seq<byte>))
    ensures Tagged(a) + x == [r.0] + r.1
  {
    match a
    case None => (0, x)
    case Some(bytes) =>
      assert [1] + Counted(bytes) + x == [1] + (Counted(bytes) + x);
      (1, Counted(bytes) + x)
  }

  /** A serialised transaction says where it ends. */
  lemma SerializedSplits(a: Transaction, b: Transaction, x: seq<byte>, y: seq<byte>)
    requires SerializedThen(a, x) == SerializedThen(b, y)
    ensures a == b && x == y
  {
    var x1, y1 := Tagged(a.signature) + x, Tagged(b.signature) + y;
    var x2, y2 := Counted(a.data) + x1, Counted(b.data) + y1;
    var x3, y3 := Fixed(a.value, 8) + x2, Fixed(b.value, 8) + y2;
    var x4, y4 := Counted(a.to) + x3, Counted(b.to) + y3;
    FixedSplits(a.nonce, b.nonce, Counted(a.from) + x4, Counted(b.from) + y4);
    CountedSplits(a.from, b.from, x4, y4);
    CountedSplits(a.to, b.to, x3, y3);
    FixedSplits(a.value, b.value, x2, y2);
    CountedSplits(a.data, b.data, x1, y1);
    TaggedSplits(a.signature, b.signature, x, y);
  }

  /** Though nothing separates the transactions fed to the hasher, different lists feed it different
      bytes: a root is the root of one list. */
  lemma {:induction false} RootDeterminesTransactions(a: seq<Transaction>, b: seq<Transaction>)
    requires TransactionsRoot(a) == TransactionsRoot(b)
    ensures a == b
    decreases |a|
  {
    if a != [] && b != [] {
      SerializedSplits(a[0], b[0], Concatenated(a[1..]), Concatenated(b[1..]));
      RootDeterminesTransactions(a[1..], b[1..]);
      assert a == [a[0]] + a[1..] && b == [b[0]] + b[1..];
    }
  }

  /** So a hash admits one body: all blocks with that hash have one header, and those of them that
      verify have the same transactions, all of them signed. */
  lemma HashAdmitsOneBody(b: Block, c: Block)
    requires b.Hash() == c.Hash() && b.Verify() && c.Verify()
    ensures b.header == c.header && b.transactions == c.transactions
    ensures forall t | t in b.transactions :: t.signature.Some?
  {
    RootDeterminesTransactions(b.transactions, c.transactions);
  }
}
