/**
  Encrypted streaming: one session key for many chunks, each under a fresh initialization vector.

  The cipher is any pair of functions under the session's key, mode and associated data of which
  decryption undoes encryption; in block mode it is built from a block cipher and padding.
*/
module StreamSession {
  import opened Pkcs7

  type Iv = nat
  type Ciphertext = seq<byte>

  datatype Chunk = Chunk(iv: Iv, ciphertext: Ciphertext)

  datatype StreamError = NoUniqueIv | RepeatedIv | DecryptionFailed
  datatype Outcome<+T> = Value(value: T) | Raised(error: StreamError)

  datatype Cipher = Cipher(encrypt: (Iv, Bytes) -> Ciphertext, decrypt: (Iv, Ciphertext) -> Outcome<Bytes>)

  ghost predicate Inverts(c: Cipher) {
    forall iv, p :: c.decrypt(iv, c.encrypt(iv, p)) == Value(p)
  }

  // ----- Block mode -----

  /** A block cipher chained over whole blocks. */
  datatype BlockCipher = BlockCipher(encrypt: (Iv, Bytes) -> Ciphertext, decrypt: (Iv, Ciphertext) -> Bytes)

  const BLOCK_SIZE := 16

  ghost predicate BlocksInvert(b: BlockCipher) {
    forall iv, p: Bytes | |p| % BLOCK_SIZE == 0 :: b.decrypt(iv, b.encrypt(iv, p)) == p
  }

  function Unpadded(p: Bytes): Outcome<Bytes> {
    var u := Unpad(p, BLOCK_SIZE);
    if u.Ok? then Value(u.data) else Raised(DecryptionFailed)
  }

  /** Pad, then chain: the original's CBC mode. */
  function Chained(b: BlockCipher): Cipher {
    Cipher((iv: Iv, p: Bytes) => b.encrypt(iv, PaddedBlocks(p)), (iv: Iv, c: Ciphertext) => Unpadded(b.decrypt(iv, c)))
  }

  function PaddedBlocks(p: Bytes): Bytes {
    var padded := Pad(p, BLOCK_SIZE);
    if padded.Ok? then padded.data else []
  }

  /** Padding makes a cipher for whole blocks into one for any bytes. */
  lemma ChainedInverts(b: BlockCipher)
    requires BlocksInvert(b)
    ensures Inverts(Chained(b))
  {
    var c := Chained(b);
    forall iv: Iv, p: Bytes
      ensures c.decrypt(iv, c.encrypt(iv, p)) == Value(p)
    {
      PaddedLength(p, BLOCK_SIZE);
      UnpadAfterPad(p, BLOCK_SIZE);
      var padded := PaddedBlocks(p);
      assert b.decrypt(iv, b.encrypt(iv, padded)) == padded;
    }
  }

  // ----- Sending -----

  const MAX_IV_ATTEMPTS: nat := 5

  predicate UsesIv(chunks: seq<Chunk>, iv: Iv) {
    exists i :: 0 <= i < |chunks| && chunks[i].iv == iv
  }

  /** Chunks of one session, oldest first: no vector is ever used twice. */
  predicate DistinctIvs(chunks: seq<Chunk>) {
    forall i, j | 0 <= i < j < |chunks| :: chunks[i].iv != chunks[j].iv
  }

  /** The chunks are the encryptions of the plaintexts. */
  ghost predicate Encrypts(c: Cipher, chunks: seq<Chunk>, plaintexts: seq<Bytes>) {
    && |chunks| == |plaintexts|
    && forall i | 0 <= i < |chunks| :: chunks[i].ciphertext == c.encrypt(chunks[i].iv, plaintexts[i])
  }

  lemma OneMoreChunk(chunks: seq<Chunk>, chunk: Chunk)
    requires DistinctIvs(chunks) && !UsesIv(chunks, chunk.iv)
    ensures DistinctIvs(chunks + [chunk])
    ensures forall iv :: UsesIv(chunks + [chunk], iv) <==> UsesIv(chunks, iv) || iv == chunk.iv
  {
    var more := chunks + [chunk];
    forall iv
      ensures UsesIv(more, iv) <==> UsesIv(chunks, iv) || iv == chunk.iv
    {
      if UsesIv(chunks, iv) {
        var i :| 0 <= i < |chunks| && chunks[i].iv == iv;
        assert more[i].iv == iv;
      } else if iv == chunk.iv {
        assert more[|chunks|].iv == iv;
      }
    }
  }

  class Sender {
    const cipher: Cipher
    var usedIvs: set<Iv>
    var lastIv: Iv
    var chunkIndex: nat
    ghost var sent: seq<Chunk>
    ghost var plaintexts: seq<Bytes>

    ghost predicate Valid()
      reads this
    {
      && DistinctIvs(sent) && Encrypts(cipher, sent, plaintexts)
      && chunkIndex == |sent|
      && (forall iv :: iv in usedIvs <==> UsesIv(sent, iv))
    }

    constructor (cipher: Cipher)
      ensures Valid() && this.cipher == cipher && sent == []
    {
      this.cipher, usedIvs, lastIv, chunkIndex, sent, plaintexts := cipher, {}, 0, 0, [], [];
    }

    /** Encrypt a chunk under the first unused vector; with none in five draws nothing changes. */
    method EncryptStreamChunk(plaintext: Bytes, draw: nat -> Iv) returns (out: Outcome<Chunk>)
      requires Valid()
      modifies this
      ensures Valid()
      ensures out.Raised? <==> forall k: nat | k < MAX_IV_ATTEMPTS :: draw(k) in old(usedIvs)
      ensures out.Raised? ==>
                && sent == old(sent) && usedIvs == old(usedIvs) && chunkIndex == old(chunkIndex) && lastIv == old(lastIv)
      ensures out.Value? ==>
                && sent == old(sent) + [out.value] && plaintexts == old(plaintexts) + [plaintext]
                && (exists k: nat :: k < MAX_IV_ATTEMPTS && draw(k) == out.value.iv
                                     && forall j: nat | j < k :: draw(j) in old(usedIvs))
                && out.value.iv !in old(usedIvs) && usedIvs == old(usedIvs) + {out.value.iv}
                && chunkIndex == old(chunkIndex) + 1 && lastIv == out.value.iv
    {
      var iv, found, k := 0, false, 0;
      while k < MAX_IV_ATTEMPTS && !found
        invariant k <= MAX_IV_ATTEMPTS
        invariant found ==> iv !in usedIvs && 0 < k && iv == draw(k - 1)
        invariant forall j: nat | j < (if found then k - 1 else k) :: draw(j) in usedIvs
      {
        iv := draw(k);
        found := iv !in usedIvs;
        k := k + 1;
      }
      if !found {
        return Raised(NoUniqueIv);
      }
      var chunk := Chunk(iv, cipher.encrypt(iv, plaintext));
      OneMoreChunk(sent, chunk);
      usedIvs, lastIv, chunkIndex := usedIvs + {iv}, iv, chunkIndex + 1;
      sent, plaintexts := sent + [chunk], plaintexts + [plaintext];
      out := Value(chunk);
    }
  }

  // ----- Receiving -----

  /** The receiver's answer to one chunk, given the vectors it has accepted. */
  function Receive(c: Cipher, used: set<Iv>, chunk: Chunk): Outcome<Bytes> {
    var p := c.decrypt(chunk.iv, chunk.ciphertext);
    if p.Raised? then p
    else if chunk.iv in used then Raised(RepeatedIv)
    else p
  }

  function UsedAfter(c: Cipher, used: set<Iv>, chunk: Chunk): set<Iv> {
    if Receive(c, used, chunk).Value? then used + {chunk.iv} else used
  }

  /** The vectors accepted from chunks received in this order. */
  function Accepted(c: Cipher, received: seq<Chunk>): set<Iv> {
    if received == [] then {}
    else
      var last := |received| - 1;
      UsedAfter(c, Accepted(c, received[..last]), received[last])
  }

  predicate AnsweredInTurn(c: Cipher, received: seq<Chunk>, answers: seq<Outcome<Bytes>>) {
    && |answers| == |received|
    && forall k | 0 <= k < |received| :: answers[k] == Receive(c, Accepted(c, received[..k]), received[k])
  }

  function CountValues(answers: seq<Outcome<Bytes>>): nat {
    if answers == [] then 0
    else CountValues(answers[..|answers| - 1]) + if answers[|answers| - 1].Value? then 1 else 0
  }

  /** One of the chunks under this vector was answered with its plaintext. */
  predicate AnsweredUnder(received: seq<Chunk>, answers: seq<Outcome<Bytes>>, iv: Iv)
    requires |answers| == |received|
  {
    exists k :: 0 <= k < |received| && received[k].iv == iv && answers[k].Value?
  }

  lemma AnsweredUnderLast(received: seq<Chunk>, answers: seq<Outcome<Bytes>>, iv: Iv)
    requires |answers| == |received| > 0
    ensures var last := |received| - 1;
            AnsweredUnder(received, answers, iv) <==>
              AnsweredUnder(received[..last], answers[..last], iv) || (received[last].iv == iv && answers[last].Value?)
  {
    var last := |received| - 1;
    if AnsweredUnder(received[..last], answers[..last], iv) {
      var k :| 0 <= k < last && received[..last][k].iv == iv && answers[..last][k].Value?;
      assert received[k].iv == iv && answers[k].Value?;
    }
    if AnsweredUnder(received, answers, iv) {
      var k :| 0 <= k < |received| && received[k].iv == iv && answers[k].Value?;
      if k < last {
        assert received[..last][k].iv == iv && answers[..last][k].Value?;
      }
    }
  }

  lemma {:induction false} AcceptedIffAnswered(c: Cipher, received: seq<Chunk>, answers: seq<Outcome<Bytes>>, iv: Iv)
    requires AnsweredInTurn(c, received, answers)
    ensures iv in Accepted(c, received) <==> AnsweredUnder(received, answers, iv)
  {
    if received != [] {
      var last := |received| - 1;
      InTurnPrefix(c, received, answers, last);
      assert answers[last] == Receive(c, Accepted(c, received[..last]), received[last]);
      hide AnsweredUnder, AnsweredInTurn;
      AcceptedIffAnswered(c, received[..last], answers[..last], iv);
      AnsweredUnderLast(received, answers, iv);
    }
  }

  lemma InTurnPrefix(c: Cipher, received: seq<Chunk>, answers: seq<Outcome<Bytes>>, n: nat)
    requires AnsweredInTurn(c, received, answers) && n <= |received|
    ensures AnsweredInTurn(c, received[..n], answers[..n])
  {
    forall k | 0 <= k < n
      ensures answers[..n][k] == Receive(c, Accepted(c, received[..n][..k]), received[..n][k])
    {
      assert received[..n][..k] == received[..k];
    }
  }

  lemma InTurnNext(c: Cipher, received: seq<Chunk>, answers: seq<Outcome<Bytes>>, chunk: Chunk)
    requires AnsweredInTurn(c, received, answers)
    ensures AnsweredInTurn(c, received + [chunk], answers + [Receive(c, Accepted(c, received), chunk)])
    ensures Accepted(c, received + [chunk]) == UsedAfter(c, Accepted(c, received), chunk)
  {
    var more := received + [chunk];
    assert more[..|received|] == received;
    forall k | 0 <= k < |received|
      ensures more[..k] == received[..k]
    {
    }
  }

  lemma CountNext(answers: seq<Outcome<Bytes>>, out: Outcome<Bytes>)
    ensures CountValues(answers + [out]) == CountValues(answers) + if out.Value? then 1 else 0
  {
    assert (answers + [out])[..|answers|] == answers;
  }

  class Receiver {
    const cipher: Cipher
    var usedIvs: set<Iv>
    var lastIv: Iv
    var chunkIndex: nat
    ghost var received: seq<Chunk>
    ghost var answers: seq<Outcome<Bytes>>

    ghost predicate Valid()
      reads this
    {
      && AnsweredInTurn(cipher, received, answers)
      && usedIvs == Accepted(cipher, received)
      && chunkIndex == CountValues(answers)
    }

    constructor (cipher: Cipher)
      ensures Valid() && this.cipher == cipher && received == []
    {
      this.cipher, usedIvs, lastIv, chunkIndex, received, answers := cipher, {}, 0, 0, [], [];
    }

    /** Decrypt a chunk once; a second chunk under the same vector is refused without any change. */
    method DecryptStreamChunk(chunk: Chunk) returns (out: Outcome<Bytes>)
      requires Valid()
      modifies this
      ensures Valid() && received == old(received) + [chunk] && answers == old(answers) + [out]
      ensures out.Value? <==> cipher.decrypt(chunk.iv, chunk.ciphertext).Value? && chunk.iv !in old(usedIvs)
      ensures if out.Value?
              then out == cipher.decrypt(chunk.iv, chunk.ciphertext) && usedIvs == old(usedIvs) + {chunk.iv} && lastIv == chunk.iv
              else usedIvs == old(usedIvs) && lastIv == old(lastIv) && chunkIndex == old(chunkIndex)
    {
      hide AnsweredInTurn, Accepted, CountValues;
      InTurnNext(cipher, received, answers, chunk);
      out := cipher.decrypt(chunk.iv, chunk.ciphertext);
      if out.Value? && chunk.iv in usedIvs {
        out := Raised(RepeatedIv);
      } else if out.Value? {
        usedIvs, lastIv, chunkIndex := usedIvs + {chunk.iv}, chunk.iv, chunkIndex + 1;
      }
      CountNext(answers, out);
      received, answers := received + [chunk], answers + [out];
    }

    /** Whatever arrives, forged chunks included, no vector is ever accepted twice. */
    lemma OncePerVector(i: nat, j: nat)
      requires Valid() && i < j < |received| && answers[i].Value? && answers[j].Value?
      ensures received[i].iv != received[j].iv
    {
      InTurnPrefix(cipher, received, answers, j);
      AcceptedIffAnswered(cipher, received[..j], answers[..j], received[i].iv);
      assert received[..j][i] == received[i] && answers[..j][i] == answers[i];
    }

    /**
      Whatever the network reorders, repeats or drops of a sender's chunks, this receiver has returned
      each chunk's plaintext the first time the chunk arrived, and refused every repetition.
    */
    lemma EachPlaintextOnce(sent: seq<Chunk>, plaintexts: seq<Bytes>, delivered: seq<nat>, k: nat)
      requires Valid() && Inverts(cipher) && DistinctIvs(sent) && Encrypts(cipher, sent, plaintexts)
      requires |delivered| == |received| && k < |received|
      requires forall i | 0 <= i < |received| :: delivered[i] < |sent| && received[i] == sent[delivered[i]]
      ensures answers[k] == if delivered[k] in delivered[..k] then Raised(RepeatedIv) else Value(plaintexts[delivered[k]])
    {
      var d := delivered[k];
      InTurnPrefix(cipher, received, answers, k);
      AcceptedIffAnswered(cipher, received[..k], answers[..k], sent[d].iv);
      assert cipher.decrypt(sent[d].iv, sent[d].ciphertext) == Value(plaintexts[d]);
      FirstArrivalAnswered(sent, plaintexts, delivered, k);
      assert forall i | 0 <= i < k && received[..k][i].iv == sent[d].iv :: delivered[..k][i] == d;
    }

    /** If a chunk has arrived before `k`, one of its arrivals was answered. */
    lemma {:induction false} FirstArrivalAnswered(sent: seq<Chunk>, plaintexts: seq<Bytes>, delivered: seq<nat>, k: nat)
      requires Valid() && Inverts(cipher) && DistinctIvs(sent) && Encrypts(cipher, sent, plaintexts)
      requires |delivered| == |received| && k < |received|
      requires forall i | 0 <= i < |received| :: delivered[i] < |sent| && received[i] == sent[delivered[i]]
      ensures delivered[k] in delivered[..k] ==>
                AnsweredUnder(received[..k], answers[..k], received[k].iv)
    {
      if i :| 0 <= i < k && delivered[..k][i] == delivered[k] {
        var d := delivered[i];
        assert cipher.decrypt(sent[d].iv, sent[d].ciphertext) == Value(plaintexts[d]);
        if answers[i].Value? {
          assert received[..k][i].iv == received[k].iv && answers[..k][i].Value?;
        } else {
          InTurnPrefix(cipher, received, answers, i);
          AcceptedIffAnswered(cipher, received[..i], answers[..i], received[i].iv);
          var j :| 0 <= j < i && received[..i][j].iv == received[i].iv && answers[..i][j].Value?;
          assert received[..k][j].iv == received[k].iv && answers[..k][j].Value?;
        }
      }
    }
  }
}
