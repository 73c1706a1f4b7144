/** Record layout of Web Push messages (RFC 8188, section 2): splitting and padding a payload
    before encryption. Key derivation and AES-GCM are not part of this model: a record is the
    plaintext that is handed to the cipher. */
module WebPush {
  import opened Common

  const RECORD_SIZE: nat := 4096
  const TAG_LENGTH: nat := 16
  const PADDING_BLOCK: nat := 128
  const PAD_SIZE: nat := 1

  /** Plaintext bytes of a full record. */
  const RS: nat := RECORD_SIZE - TAG_LENGTH

  // ----- What a receiver does

  function StripZeros(r: seq<Byte>): seq<Byte> {
    if r != [] && r[|r| - 1] == 0 then StripZeros(r[..|r| - 1]) else r
  }

  /** Removes padding and delimiter: 2 ends the last record, 1 any other. */
  function Unpad(r: seq<Byte>, isLast: bool): Option<seq<Byte>> {
    var s := StripZeros(r);
    if s != [] && s[|s| - 1] == (if isLast then 2 else 1) then Some(s[..|s| - 1]) else None
  }

  /** Reads `rs`, of which the last one is the last of the message if `ended`. */
  function Unsplit(rs: seq<seq<Byte>>, ended: bool): Option<seq<Byte>> {
    if rs == [] then Some([])
    else
      var n := |rs| - 1;
      match (Unsplit(rs[..n], false), Unpad(rs[n], ended))
      case (Some(front), Some(last)) => Some(front + last)
      case _ => None
  }

  /** RFC 8188: all records are full, except that the last one may be shorter. */
  ghost predicate WellFormed(rs: seq<seq<Byte>>) {
    && rs != []
    && (forall i :: 0 <= i < |rs| - 1 ==> |rs[i]| == RS)
    && 0 < |rs[|rs| - 1]| <= RS
  }

  // ----- Sizes

  function CeilDiv(a: nat, b: nat): nat
    requires b > 0
  {
    a / b + if a % b != 0 then 1 else 0
  }

  function PadLength(n: nat): nat {
    var pad := PADDING_BLOCK - n % PADDING_BLOCK;
    var pad' := if pad < PAD_SIZE then pad + PADDING_BLOCK else pad;
    var minRecords := CeilDiv(n, RS - 1);
    if pad' < minRecords then minRecords else pad'
  }

  function NumRecords(n: nat): nat {
    CeilDiv(n + PadLength(n), RS)
  }

  /** Size of the last record. */
  function FinalSize(n: nat): nat {
    var f := (n + PadLength(n)) % RS;
    if f == 0 then RS else f
  }

  lemma CeilFacts(n: nat)
    ensures CeilDiv(n, 4079) * 4079 >= n
    ensures n < CeilDiv(n, 4079) * 4079 + 4079
  {
  }

  lemma SizeFacts(n: nat)
    ensures 1 <= NumRecords(n) <= PadLength(n)
    ensures n <= NumRecords(n) * (RS - 1)
    ensures 1 <= FinalSize(n) <= RS
    ensures n + PadLength(n) == (NumRecords(n) - 1) * RS + FinalSize(n)
  {
    CeilFacts(n);
    var m, p := CeilDiv(n, 4079), PadLength(n);
    var t := n + p;
    assert t == (t / 4080) * 4080 + t % 4080;
  }

  /** The padding fills up a block, or is one byte for each record that the data need at least if that is more; so
      that the lengths of messages differ by whole blocks. `q` is any padding that fills up a block. */
  lemma PaddingIsLeast(n: nat, q: nat)
    requires q > 0 && (n + q) % PADDING_BLOCK == 0
    ensures var p, records := PadLength(n), CeilDiv(n, RS - 1);
            && p > 0 && p >= records && (p <= q || p == records)
            && (p == records || (n + p) % PADDING_BLOCK == 0)
  {
    assert n % 128 + q >= 128;
  }

  lemma MulMonotone(x: int, y: int, z: nat)
    requires x <= y
    ensures x * z <= y * z
  {
  }

  lemma CeilDefinition(a: nat, b: nat)
    requires a > 0 && b > 0
    ensures CeilDiv(a, b) * b >= a && (CeilDiv(a, b) - 1) * b < a
  {
    var d, r := a / b, a % b;
    assert a == d * b + r;
    if r != 0 {
      assert (d + 1) * b == d * b + b;
    } else {
      assert (d - 1) * b == d * b - b;
    }
  }

  lemma CeilBounds(a: nat, b: nat, c: nat)
    requires 0 < a <= c * b && 0 < b
    ensures 0 < CeilDiv(a, b) <= c && CeilDiv(a, b) <= a
    ensures a - CeilDiv(a, b) <= c * (b - 1)
  {
    var q := CeilDiv(a, b);
    CeilDefinition(a, b);
    if q > c {
      MulMonotone(c, q - 1, b);
    }
    if q > a {
      MulMonotone(1, b, q - 1);
    }
    assert q * b - q == q * (b - 1);
    MulMonotone(q, c, b - 1);
  }

  // ----- Splitting

  function Zeros(n: nat): seq<Byte> {
    seq(n, _ => 0)
  }

  function Resized(r: seq<Byte>, n: nat): seq<Byte> {
    if n <= |r| then r[..n] else r + Zeros(n - |r|)
  }

  lemma {:induction false} StripPadding(s: seq<Byte>, n: nat)
    requires s != [] && s[|s| - 1] != 0
    ensures StripZeros(s + Zeros(n)) == s
  {
    if n > 0 {
      assert (s + Zeros(n))[..|s| + n - 1] == s + Zeros(n - 1);
      StripPadding(s, n - 1);
    } else {
      assert s + Zeros(0) == s;
    }
  }

  lemma UnpadRecord(data: seq<Byte>, isLast: bool, n: nat)
    requires n > |data|
    ensures Unpad(Resized(data + [if isLast then 2 else 1], n), isLast) == Some(data)
  {
    var s := data + [if isLast then 2 else 1];
    assert Resized(s, n) == s + Zeros(n - |s|);
    StripPadding(s, n - |s|);
  }

  lemma UnsplitSnoc(rs: seq<seq<Byte>>, r: seq<Byte>, ended: bool)
    ensures Unsplit(rs + [r], ended) ==
            match (Unsplit(rs, false), Unpad(r, ended))
            case (Some(front), Some(last)) => Some(front + last)
            case _ => None
  {
    assert (rs + [r])[..|rs|] == rs;
  }

  /** The bytes the next record takes: an even share, plus an even part of the surplus. */
  function DataShare(perRecord: nat, dataLen: nat, extra: nat, remaining: nat): nat
    requires remaining > 1 || perRecord > dataLen || extra == 0
  {
    if perRecord > dataLen then dataLen
    else if extra > 0 then perRecord + CeilDiv(extra, remaining - 1)
    else perRecord
  }

  /** `x * k`, out of sight of non-linear arithmetic. */
  function Times(x: nat, k: nat): nat {
    if k == 0 then 0 else Times(x, k - 1) + x
  }

  lemma {:induction false} TimesIsProduct(x: nat, k: nat)
    ensures Times(x, k) == x * k
  {
    if k > 0 {
      TimesIsProduct(x, k - 1);
      assert x * k == x * (k - 1) + x;
    }
  }

  lemma {:induction false} TimesSum(x: nat, y: nat, k: nat)
    requires x + y == RS - 1
    ensures Times(x, k) + Times(y, k) == (RS - 1) * k
  {
    if k > 0 {
      TimesSum(x, y, k - 1);
    }
  }

  /** With `k` records to come after the next one, the data left fills them with even shares, the
      last one with `last` bytes, and the surplus fits next to the shares; data and padding left
      fill all of them. */
  ghost predicate Balanced(q: nat, last: nat, fin: nat, k: nat, dataLen: nat, extra: nat, pad: nat) {
    && q <= RS - 1 && last <= q && last < fin <= RS && (last < q ==> last == fin - 1)
    && dataLen == Times(q, k) + last + extra
    && extra <= Times(RS - 1 - q, k)
    && pad + dataLen == k * RS + fin
  }

  lemma NextRecordFull(q: nat, last: nat, fin: nat, k: nat, dataLen: nat, extra: nat, pad: nat)
    requires k > 0 && Balanced(q, last, fin, k, dataLen, extra, pad)
    ensures var share := DataShare(q, dataLen, extra, k + 1);
            && q <= dataLen && q <= share <= dataLen && share < RS
            && share - q <= extra
            && RS - share <= pad
            && Balanced(q, last, fin, k - 1, dataLen - share, extra - (share - q), pad - (RS - share))
  {
    var c := RS - 1 - q;
    TimesIsProduct(c, k);
    TimesIsProduct(c, k - 1);
    TimesSum(q, c, k - 1);
    if extra > 0 {
      CeilBounds(extra, k, c);
    }
  }

  lemma LastRecord(q: nat, last: nat, fin: nat, dataLen: nat, extra: nat, pad: nat)
    requires Balanced(q, last, fin, 0, dataLen, extra, pad)
    ensures extra == 0 && dataLen == last && pad == fin - last > 0
    ensures DataShare(q, dataLen, extra, 1) == dataLen
  {
  }

  lemma FirstBalance(n: nat, num: nat, fin: nat, pad: nat, q: nat, e: nat)
    requires n == q * num + e && e < num <= pad
    requires n <= num * (RS - 1) && 1 <= fin <= RS && n + pad == (num - 1) * RS + fin
    ensures var extra := if q > fin - 1 then e + (q - (fin - 1)) else e;
            var last := if q > fin - 1 then fin - 1 else q;
            Balanced(q, last, fin, num - 1, n, extra, pad)
  {
    assert q * num == q * (num - 1) + q;
    if q >= RS - 1 {
      MulMonotone(RS - 1, q, num);
      assert num * (RS - 1) == (RS - 1) * num;
      if q > RS - 1 {
        MulMonotone(RS, q, num);
      }
    }
    TimesIsProduct(q, num - 1);
    if q <= RS - 1 {
      TimesIsProduct(RS - 1 - q, num - 1);
      TimesSum(q, RS - 1 - q, num - 1);
    }
    if q < RS - 1 {
      MulMonotone(1, RS - 1 - q, num - 1);
    }
  }

  lemma DivMod(n: nat, d: nat)
    requires d > 0
    ensures n == (n / d) * d + n % d && n % d < d
  {
  }

  /** Plans the records: their number, the even share and the surplus. */
  method PlanRecords(dataLen: nat)
    returns (numRecords: nat, perRecord: nat, extra: nat, padLength: nat, ghost last: nat)
    ensures numRecords == NumRecords(dataLen) > 0
    ensures Balanced(perRecord, last, FinalSize(dataLen), numRecords - 1, dataLen, extra, padLength)
  {
    var sizeOfFinalRecord;
    numRecords, sizeOfFinalRecord, padLength := CountRecords(dataLen);
    perRecord, extra, last := ShareOut(dataLen, numRecords, sizeOfFinalRecord, padLength);
  }

  method CountRecords(dataLen: nat) returns (numRecords: nat, sizeOfFinalRecord: nat, padLength: nat)
    ensures numRecords == NumRecords(dataLen) > 0 && padLength == PadLength(dataLen)
    ensures sizeOfFinalRecord == (dataLen + padLength) % RS
  {
    SizeFacts(dataLen);
    padLength := PadLength(dataLen);
    var totalSize := dataLen + padLength;
    numRecords := totalSize / RS;
    sizeOfFinalRecord := totalSize % RS;
    if sizeOfFinalRecord > 0 {
      numRecords := numRecords + 1;
    }
  }

  method ShareOut(dataLen: nat, numRecords: nat, sizeOfFinalRecord: nat, ghost padLength: nat)
    returns (perRecord: nat, extra: nat, ghost last: nat)
    requires numRecords == NumRecords(dataLen) > 0 && padLength == PadLength(dataLen)
    requires sizeOfFinalRecord == (dataLen + padLength) % RS
    ensures Balanced(perRecord, last, FinalSize(dataLen), numRecords - 1, dataLen, extra, padLength)
  {
    SizeFacts(dataLen);
    ghost var fin := FinalSize(dataLen);
    DivMod(dataLen, numRecords);
    perRecord := dataLen / numRecords;
    extra := dataLen % numRecords;
    FirstBalance(dataLen, numRecords, fin, padLength, perRecord, extra);
    last := if perRecord > fin - 1 then fin - 1 else perRecord;
    if sizeOfFinalRecord > 0 && perRecord > sizeOfFinalRecord - 1 {
      extra := extra + (perRecord - (sizeOfFinalRecord - 1));
    }
  }

  /** The bytes the next record takes, an even share plus an even part of the surplus, and the
      surplus left. The records after it stay balanced. */
  method TakeShare(perRecord: nat, dataLen: nat, extra: nat, remaining: nat, ghost last: nat, ghost fin: nat,
                   ghost pad: nat)
    returns (share: nat, extra': nat)
    requires remaining > 0 && Balanced(perRecord, last, fin, remaining - 1, dataLen, extra, pad)
    ensures share <= dataLen && share < RS && pad > 0
    ensures remaining > 1 ==>
            && RS - share <= pad
            && Balanced(perRecord, last, fin, remaining - 2, dataLen - share, extra', pad - (RS - share))
    ensures remaining == 1 ==> share == dataLen && pad + share == fin
  {
    share, extra' := perRecord, extra;
    if remaining > 1 {
      NextRecordFull(perRecord, last, fin, remaining - 1, dataLen, extra, pad);
    } else {
      LastRecord(perRecord, last, fin, dataLen, extra, pad);
    }
    if share > dataLen {
      share := dataLen;
    } else if extra > 0 {
      var extraShare: nat := extra / (remaining - 1);
      if extra % (remaining - 1) != 0 {
        extraShare := extraShare + 1;
      }
      share := share + extraShare;
      extra' := extra - extraShare;
    }
  }

  /** Splits a payload into padded records, so that a receiver who strips the padding gets the
      payload back, every record but the last is full, and all padding is used. */
  method SplitRecords(payload: seq<Byte>) returns (records: seq<seq<Byte>>)
    ensures WellFormed(records)
    ensures |records| == NumRecords(|payload|)
    ensures |records[|records| - 1]| == FinalSize(|payload|)
    ensures Unsplit(records, true) == Some(payload)
  {
    var data := payload;
    var numRecords, perRecord, extra, padLength, last := PlanRecords(|payload|);
    ghost var fin := FinalSize(|payload|);
    ghost var done: seq<Byte> := [];
    var remaining := numRecords;
    records := [];
    while remaining > 0
      invariant |records| + remaining == numRecords
      invariant remaining > 0 ==> Balanced(perRecord, last, fin, remaining - 1, |data|, extra, padLength)
      invariant remaining == 0 ==> data == [] && |records[numRecords - 1]| == fin
      invariant forall i :: 0 <= i < |records| && i < numRecords - 1 ==> |records[i]| == RS
      invariant payload == done + data
      invariant Unsplit(records, remaining == 0) == Some(done)
    {
      var share, record;
      share, extra := TakeShare(perRecord, |data|, extra, remaining, last, fin, padLength);
      done := done + data[..share];
      data, padLength, record := NextRecord(data, padLength, share, remaining == 1);
      UnsplitSnoc(records, record, remaining == 1);
      remaining := remaining - 1;
      records := records + [record];
    }
    assert done + [] == done;
  }

  /** Cuts one record off the data and pads it as far as padding is left. */
  method NextRecord(data: seq<Byte>, padLength: nat, dataShare: nat, isLast: bool)
    returns (rest: seq<Byte>, padRest: nat, record: seq<Byte>)
    requires dataShare <= |data| && dataShare < RS && padLength > 0
    ensures rest == data[dataShare..]
    ensures padRest == if padLength < RS - dataShare then 0 else padLength - (RS - dataShare)
    ensures |record| == if padLength < RS - dataShare then dataShare + padLength else RS
    ensures Unpad(record, isLast) == Some(data[..dataShare])
  {
    var curData := data[..dataShare];
    rest := data[dataShare..];
    var padding: nat := if padLength < RS - dataShare then padLength else RS - dataShare;
    padRest := padLength - padding;
    record := Resized(curData + [if isLast then 2 else 1], |curData| + padding);
    UnpadRecord(curData, isLast, |curData| + padding);
  }

  // ----- Initialization vectors

  function BigEndian(x: bv64): seq<bv64> {
    [x >> 56, (x >> 48) & 0xff, (x >> 40) & 0xff, (x >> 32) & 0xff,
     (x >> 24) & 0xff, (x >> 16) & 0xff, (x >> 8) & 0xff, x & 0xff]
  }

  function FromBigEndian(b: seq<bv64>): bv64
    requires |b| == 8
  {
    (b[0] << 56) | (b[1] << 48) | (b[2] << 40) | (b[3] << 32) | (b[4] << 24) | (b[5] << 16) | (b[6] << 8) | b[7]
  }

  const NONCE_LENGTH: nat := 12

  function MixIn(prefix: seq<bv64>, mask: bv64, counter: bv64): seq<bv64> {
    prefix + BigEndian(mask ^ counter)
  }

  /** The nonce with the record number mixed into its last eight bytes. */
  function GenerateIv(nonce: seq<bv64>, counter: bv64): seq<bv64>
    requires |nonce| == NONCE_LENGTH
  {
    MixIn(nonce[..NONCE_LENGTH - 8], FromBigEndian(nonce[NONCE_LENGTH - 8..]), counter)
  }

  lemma BigEndianRoundTrip(x: bv64)
    ensures FromBigEndian(BigEndian(x)) == x
  {
  }

  lemma BigEndianIsInjective(x: bv64, y: bv64)
    requires BigEndian(x) == BigEndian(y)
    ensures x == y
  {
    BigEndianRoundTrip(x);
    BigEndianRoundTrip(y);
  }

  lemma XorCancels(m: bv64, a: bv64, b: bv64)
    requires m ^ a == m ^ b
    ensures a == b
  {
    assert (m ^ a) ^ m == a && (m ^ b) ^ m == b;
  }

  lemma SameTail(prefix: seq<bv64>, a: seq<bv64>, b: seq<bv64>)
    requires prefix + a == prefix + b
    ensures a == b
  {
    assert a == (prefix + a)[|prefix|..] && b == (prefix + b)[|prefix|..];
  }

  lemma MixInIsInjective(prefix: seq<bv64>, mask: bv64, a: bv64, b: bv64)
    requires MixIn(prefix, mask, a) == MixIn(prefix, mask, b)
    ensures a == b
  {
    SameTail(prefix, BigEndian(mask ^ a), BigEndian(mask ^ b));
    BigEndianIsInjective(mask ^ a, mask ^ b);
    XorCancels(mask, a, b);
  }

  /** No two records of a message share an initialization vector. */
  lemma IvsAreDistinct(nonce: seq<bv64>, a: bv64, b: bv64)
    requires |nonce| == NONCE_LENGTH && GenerateIv(nonce, a) == GenerateIv(nonce, b)
    ensures a == b
  {
    MixInIsInjective(nonce[..NONCE_LENGTH - 8], FromBigEndian(nonce[NONCE_LENGTH - 8..]), a, b);
  }

  lemma XorOfHighBytes(a: bv64, b: bv64)
    ensures (a ^ b) >> 56 == (a >> 56) ^ (b >> 56)
    ensures ((a ^ b) >> 48) & 0xff == ((a >> 48) & 0xff) ^ ((b >> 48) & 0xff)
    ensures ((a ^ b) >> 40) & 0xff == ((a >> 40) & 0xff) ^ ((b >> 40) & 0xff)
    ensures ((a ^ b) >> 32) & 0xff == ((a >> 32) & 0xff) ^ ((b >> 32) & 0xff)
  {
  }

  lemma XorOfLowBytes(a: bv64, b: bv64)
    ensures ((a ^ b) >> 24) & 0xff == ((a >> 24) & 0xff) ^ ((b >> 24) & 0xff)
    ensures ((a ^ b) >> 16) & 0xff == ((a >> 16) & 0xff) ^ ((b >> 16) & 0xff)
    ensures ((a ^ b) >> 8) & 0xff == ((a >> 8) & 0xff) ^ ((b >> 8) & 0xff)
    ensures (a ^ b) & 0xff == (a & 0xff) ^ (b & 0xff)
  {
  }

  lemma BytesOfNumber(b: seq<bv64>)
    requires |b| == 8 && forall k :: 0 <= k < 8 ==> b[k] <= 0xff
    ensures BigEndian(FromBigEndian(b)) == b
  {
  }

  /** Section 2.3 of RFC 8188: the vector is the nonce xor the record number as twelve bytes, the most significant
      one first. */
  lemma IvIsNonceXorNumber(nonce: seq<bv64>, counter: bv64)
    requires |nonce| == NONCE_LENGTH && forall k :: 0 <= k < |nonce| ==> nonce[k] <= 0xff
    ensures var iv := GenerateIv(nonce, counter);
            && |iv| == 12 && iv[0] == nonce[0] && iv[1] == nonce[1] && iv[2] == nonce[2] && iv[3] == nonce[3]
            && iv[4] == nonce[4] ^ (counter >> 56) && iv[5] == nonce[5] ^ ((counter >> 48) & 0xff)
            && iv[6] == nonce[6] ^ ((counter >> 40) & 0xff) && iv[7] == nonce[7] ^ ((counter >> 32) & 0xff)
            && iv[8] == nonce[8] ^ ((counter >> 24) & 0xff) && iv[9] == nonce[9] ^ ((counter >> 16) & 0xff)
            && iv[10] == nonce[10] ^ ((counter >> 8) & 0xff) && iv[11] == nonce[11] ^ (counter & 0xff)
  {
    var tail := nonce[NONCE_LENGTH - 8..];
    BytesOfNumber(tail);
    XorOfHighBytes(FromBigEndian(tail), counter);
    XorOfLowBytes(FromBigEndian(tail), counter);
  }
}
