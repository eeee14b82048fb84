/** Name-value pairs: section 3.4 of the FastCGI Specification as `PairParseFunctions` codes it. */
module Pairs {
  import opened Bytes

  datatype Pair = Pair(key: bytes, value: bytes)

  type PairMap = map<bytes, bytes>

  // ---------------------------------------------------------------- writing

  /** One octet up to 127, else four with the top bit set; higher bits of `n` are cut off. */
  function EncodeLength(n: nat): bytes {
    if n > 0x7f then [0x80 + n / 0x100_0000 % 0x80, n / 0x1_0000 % 256, n / 256 % 256, n % 256] else [n]
  }

  function EncodePair(p: Pair): bytes {
    EncodeLength(|p.key|) + EncodeLength(|p.value|) + p.key + p.value
  }

  function EncodePairs(ps: seq<Pair>): bytes {
    if ps == [] then [] else EncodePair(ps[0]) + EncodePairs(ps[1..])
  }

  method WriteLength(buffer: bytes, n: nat) returns (buffer': bytes)
    ensures buffer' == buffer + EncodeLength(n)
  {
    if n > 0x7f {
      buffer' := buffer + [0x80 + n / 0x100_0000 % 0x80];
      buffer' := buffer' + [n / 0x1_0000 % 256];
      buffer' := buffer' + [n / 256 % 256];
      buffer' := buffer' + [n % 256];
    } else {
      buffer' := buffer + [n];
    }
  }

  method WritePair(buffer: bytes, key: bytes, value: bytes) returns (buffer': bytes)
    ensures buffer' == buffer + EncodePair(Pair(key, value))
  {
    buffer' := WriteLength(buffer, |key|);
    buffer' := WriteLength(buffer', |value|);
    buffer' := buffer' + key;
    buffer' := buffer' + value;
  }

  // ---------------------------------------------------------------- reading

  datatype LengthScan = NoLength | Length(value: nat, size: nat)

  function ReadLength(u: bytes): (scan: LengthScan)
    requires u != []
    ensures scan.Length? ==> 0 < scan.size <= |u| && scan.value < TWO_31
  {
    if u[0] >= 0x80 then
      if |u| < 4 then NoLength
      else Length((u[0] - 0x80) as nat * 0x100_0000 + u[1] as nat * 0x1_0000 + u[2] as nat * 256 + u[3], 4)
    else Length(u[0], 1)
  }

  /** One turn of the parse loop: stop, or a pair and the octets it took. */
  datatype PairScan = Stop | Found(pair: Pair, size: nat)

  function ReadPair(u: bytes): (scan: PairScan)
    ensures scan.Found? ==> 0 < scan.size <= |u|
    ensures scan.Found? ==> |scan.pair.key| < TWO_31 && |scan.pair.value| < TWO_31
  {
    if u == [] then Stop else
      match ReadLength(u)
      case NoLength => Stop
      case Length(nameLength, n1) =>
        if n1 >= |u| then Stop else
          match ReadLength(u[n1..])
          case NoLength => Stop
          case Length(valueLength, n2) =>
            var body := u[n1 + n2..];
            if |body| < nameLength || |body| - nameLength < valueLength then Stop
            else Found(Pair(body[..nameLength], body[nameLength..nameLength + valueLength]),
                       n1 + n2 + nameLength + valueLength)
  }

  /** `field` says `n`, as section 3.4 has it: one octet below 128, or four with the top bit set and the
      high octets first. */
  predicate Says(field: bytes, n: nat) {
    || (|field| == 1 && field[0] < 128 && n == field[0] as nat)
    || (|field| == 4 && field[0] >= 128
        && n == (field[0] - 128) as nat * 16777216 + field[1] as nat * 65536 + field[2] as nat * 256 + field[3] as nat)
  }

  lemma LengthSays(u: bytes, n: nat, size: nat)
    requires u != []
    ensures ReadLength(u) == Length(n, size) <==> size <= |u| && Says(u[..size], n)
  {
  }

  /** The octets of a pair: the length of the key, the length of the value, the key, the value. */
  predicate Spelled(b: bytes, p: Pair, n1: nat, n2: nat) {
    && |b| == n1 + n2 + |p.key| + |p.value|
    && Says(b[..n1], |p.key|) && Says(b[n1..n1 + n2], |p.value|)
    && b[n1 + n2..n1 + n2 + |p.key|] == p.key && b[n1 + n2 + |p.key|..] == p.value
  }

  /** The parse loop finds a pair if and only if its octets stand at the cursor. */
  lemma PairSpelled(u: bytes, p: Pair, size: nat)
    ensures ReadPair(u) == Found(p, size) <==> size <= |u| && exists n1: nat, n2: nat :: Spelled(u[..size], p, n1, n2)
  {
    if ReadPair(u) == Found(p, size) {
      var n1 := ReadLength(u).size;
      var n2 := ReadLength(u[n1..]).size;
      FieldsAt(u, size, n1, n2, |p.key|);
      LengthSays(u, |p.key|, n1);
      LengthSays(u[n1..], |p.value|, n2);
      assert Spelled(u[..size], p, n1, n2);
    }
    if size <= |u| {
      forall n1: nat, n2: nat | Spelled(u[..size], p, n1, n2) ensures ReadPair(u) == Found(p, size) {
        SpelledFound(u, p, size, n1, n2);
      }
    }
  }

  lemma FieldsAt(u: bytes, size: nat, n1: nat, n2: nat, k: nat)
    requires n1 + n2 + k <= size <= |u|
    ensures u[..size][..n1] == u[..n1] && u[..size][n1..n1 + n2] == u[n1..][..n2]
    ensures u[..size][n1 + n2..n1 + n2 + k] == u[n1 + n2..][..k]
    ensures u[..size][n1 + n2 + k..] == u[n1 + n2..][k..size - n1 - n2]
  {
  }

  lemma SpelledFound(u: bytes, p: Pair, size: nat, n1: nat, n2: nat)
    requires size <= |u| && Spelled(u[..size], p, n1, n2)
    ensures ReadPair(u) == Found(p, size)
  {
    FieldsAt(u, size, n1, n2, |p.key|);
    LengthSays(u, |p.key|, n1);
    LengthSays(u[n1..], |p.value|, n2);
    DropDrop(u, n1, n2);
  }

  /** The shortest field is written: one octet up to 127, four from 128 to 2^31 - 1. */
  lemma LengthWritten(n: nat)
    requires n < 0x8000_0000
    ensures Says(EncodeLength(n), n)
    ensures |EncodeLength(n)| == if n < 128 then 1 else 4
  {
    FourOctets(n);
  }

  lemma PairWritten(p: Pair)
    requires |p.key| < 0x8000_0000 && |p.value| < 0x8000_0000
    ensures Spelled(EncodePair(p), p, if |p.key| < 128 then 1 else 4, if |p.value| < 128 then 1 else 4)
  {
    var a, b := EncodeLength(|p.key|), EncodeLength(|p.value|);
    LengthWritten(|p.key|);
    LengthWritten(|p.value|);
    assert EncodePair(p)[..|a|] == a && EncodePair(p)[|a|..|a| + |b|] == b;
  }

  /** `std::map::insert`: a key already present keeps its value. */
  function Insert(pairs: PairMap, p: Pair): PairMap {
    if p.key in pairs then pairs else pairs[p.key := p.value]
  }

  function InsertAll(pairs: PairMap, ps: seq<Pair>): PairMap
    decreases |ps|
  {
    if ps == [] then pairs else InsertAll(Insert(pairs, ps[0]), ps[1..])
  }

  function ParseInto(u: bytes, pairs: PairMap): PairMap
    decreases |u|
  {
    match ReadPair(u)
    case Stop => pairs
    case Found(p, size) => ParseInto(u[size..], Insert(pairs, p))
  }

  function Parse(u: bytes): PairMap {
    ParseInto(u, map[])
  }

  /** `ParsePairs(u.data(), u.size(), ...)` into an empty map: the size arrives as `unsigned int`. */
  function ParseSized(u: bytes): PairMap {
    Parse(Low32(u))
  }

  /** The length field at cursor `m`, which the parse loop reads once for the name and once for
      the value. */
  method TakeLength(u: bytes, m: nat) returns (length: nat, m': nat, cut: bool)
    requires m < |u|
    ensures cut <==> ReadLength(u[m..]).NoLength?
    ensures !cut ==> m < m' <= |u| && ReadLength(u[m..]) == Length(length, m' - m)
  {
    length, m', cut := 0, m, false;
    if u[m] >= 0x80 {
      if |u| - m < 4 {
        cut := true;
        return;
      }
      length := (u[m] - 0x80) as nat * 0x100_0000 + u[m + 1] as nat * 0x1_0000 + u[m + 2] as nat * 256 + u[m + 3];
      m' := m + 4;
    } else {
      length := u[m];
      m' := m + 1;
    }
  }

  /** One turn of the parse loop at cursor `m`: the two lengths, then the key, then the value. */
  method TakePair(u: bytes, m: nat) returns (found: bool, key: bytes, value: bytes, m': nat)
    requires m < |u|
    ensures found <==> ReadPair(u[m..]).Found?
    ensures found ==> m < m' <= |u| && ReadPair(u[m..]) == Found(Pair(key, value), m' - m)
  {
    found, key, value, m' := false, [], [], m;
    var nameLength, m1, cut := TakeLength(u, m);
    if cut || m1 >= |u| {
      return;
    }
    assert u[m..][m1 - m..] == u[m1..];
    var valueLength, m2, cut' := TakeLength(u, m1);
    if cut' {
      return;
    }
    assert u[m..][m2 - m..] == u[m2..];
    if |u| - m2 < nameLength {
      return;
    }
    key := u[m2..m2 + nameLength];
    var m3 := m2 + nameLength;
    if |u| - m3 < valueLength {
      return;
    }
    value := u[m3..m3 + valueLength];
    assert u[m2..][..nameLength] == key && u[m2..][nameLength..nameLength + valueLength] == value;
    found, m' := true, m3 + valueLength;
  }

  /** Parsing `u` into `pairs` ends with `all`. */
  predicate EndsWith(u: bytes, pairs: PairMap, all: PairMap) {
    ParseInto(u, pairs) == all
  }

  lemma ParseTurn(u: bytes, pairs: PairMap, all: PairMap, p: Pair, size: nat, rest: bytes)
    requires EndsWith(u, pairs, all) && ReadPair(u) == Found(p, size) && u[size..] == rest
    ensures EndsWith(rest, Insert(pairs, p), all)
  {
  }

  lemma ParseAt(u: bytes, m: nat, m': nat, pairs: PairMap, all: PairMap, p: Pair)
    requires m < m' <= |u| && EndsWith(u[m..], pairs, all) && ReadPair(u[m..]) == Found(p, m' - m)
    ensures EndsWith(u[m'..], Insert(pairs, p), all)
  {
    DropTo(u, m, m');
    ParseTurn(u[m..], pairs, all, p, m' - m, u[m'..]);
  }

  lemma ParseStops(u: bytes, pairs: PairMap, all: PairMap)
    requires EndsWith(u, pairs, all) && ReadPair(u).Stop?
    ensures pairs == all
  {
  }

  /** The loop itself: the cursor stays within the first `n` octets, moves on at every turn and
      adds to `pairs` without overwriting. */
  method ParsePairs(data: bytes, n: nat, pairs: PairMap) returns (pairs': PairMap)
    requires n <= |data| && n < TWO_32
    ensures pairs' == ParseInto(data[..n], pairs)
    ensures forall key :: key in pairs ==> key in pairs' && pairs'[key] == pairs[key]
  {
    var u := data[..n];
    pairs' := pairs;
    var m := 0;
    ghost var all := ParseInto(u, pairs);
    assert u[0..] == u;
    while m < n
      invariant m <= n
      invariant EndsWith(u[m..], pairs', all)
      invariant forall key :: key in pairs ==> key in pairs' && pairs'[key] == pairs[key]
    {
      var found, key, value, next := TakePair(u, m);
      if !found {
        break;
      }
      ParseAt(u, m, next, pairs', all, Pair(key, value));
      m := next;
      pairs' := if key in pairs' then pairs' else pairs'[key := value];
    }
    ParseStops(u[m..], pairs', all);
  }

  // ---------------------------------------------------------------- round trip

  predicate Short(p: Pair) {
    |p.key| < TWO_31 && |p.value| < TWO_31
  }

  predicate AllShort(ps: seq<Pair>) {
    forall i :: 0 <= i < |ps| ==> Short(ps[i])
  }

  lemma FourOctets(n: nat)
    requires n < TWO_31
    ensures n / 0x100_0000 % 0x80 * 0x100_0000 + n / 0x1_0000 % 256 * 0x1_0000 + n / 256 % 256 * 256 + n % 256 == n
  {
    var a := n / 256;
    var b := a / 256;
    assert n / 0x1_0000 == b && n / 0x100_0000 == b / 256;
  }

  lemma LengthRoundTrip(n: nat, rest: bytes)
    requires n < TWO_31
    ensures ReadLength(EncodeLength(n) + rest) == Length(n, |EncodeLength(n)|)
  {
    FourOctets(n);
    if n > 0x7f {
      var e, u := EncodeLength(n), EncodeLength(n) + rest;
      assert u[0] == e[0] && u[1] == e[1] && u[2] == e[2] && u[3] == e[3];
    }
  }

  lemma LengthCut(n: nat, k: nat)
    requires 0 < k < |EncodeLength(n)|
    ensures ReadLength(EncodeLength(n)[..k]) == NoLength
  {
  }

  /** Reading the two lengths of a pair leaves its body. */
  lemma LengthsRead(p: Pair, body: bytes)
    requires Short(p)
    ensures var a, b := EncodeLength(|p.key|), EncodeLength(|p.value|); var u := a + (b + body);
      && ReadLength(u) == Length(|p.key|, |a|) && u[|a|..] == b + body
      && ReadLength(u[|a|..]) == Length(|p.value|, |b|) && u[|a| + |b|..] == body
  {
    var b := EncodeLength(|p.value|);
    LengthRoundTrip(|p.key|, b + body);
    LengthRoundTrip(|p.value|, body);
  }

  lemma BodyLast(a: bytes, b: bytes, k: bytes, v: bytes, rest: bytes)
    ensures (a + b + k + v) + rest == a + (b + (k + v + rest))
    ensures (k + v + rest)[..|k|] == k && (k + v + rest)[|k|..|k| + |v|] == v
  {
  }

  lemma PairRoundTrip(p: Pair, rest: bytes)
    requires Short(p)
    ensures ReadPair(EncodePair(p) + rest) == Found(p, |EncodePair(p)|)
  {
    LengthsRead(p, p.key + p.value + rest);
    BodyLast(EncodeLength(|p.key|), EncodeLength(|p.value|), p.key, p.value, rest);
  }

  lemma BodyCut(a: bytes, b: bytes, k: bytes, v: bytes, n: nat)
    requires |a| <= n <= |a| + |b| + |k| + |v|
    ensures n <= |a| + |b| ==> (a + b + k + v)[..n] == a + b[..n - |a|]
    ensures n >= |a| + |b| ==> (a + b + k + v)[..n] == a + (b + (k + v)[..n - |a| - |b|])
  {
  }

  /** A pair cut short anywhere stops the loop without an insertion. */
  lemma PairCut(p: Pair, k: nat)
    requires Short(p) && k < |EncodePair(p)|
    ensures ReadPair(EncodePair(p)[..k]) == Stop
  {
    var a, b := EncodeLength(|p.key|), EncodeLength(|p.value|);
    if k < |a| {
      assert EncodePair(p)[..k] == a[..k];
      if k > 0 {
        LengthCut(|p.key|, k);
      }
    } else {
      BodyCut(a, b, p.key, p.value, k);
      if k < |a| + |b| {
        ValueLengthCut(p, k - |a|);
      } else {
        LengthsRead(p, (p.key + p.value)[..k - |a| - |b|]);
      }
    }
  }

  lemma ValueLengthCut(p: Pair, k: nat)
    requires Short(p) && k < |EncodeLength(|p.value|)|
    ensures ReadPair(EncodeLength(|p.key|) + EncodeLength(|p.value|)[..k]) == Stop
  {
    var a, b := EncodeLength(|p.key|), EncodeLength(|p.value|)[..k];
    LengthRoundTrip(|p.key|, b);
    assert (a + b)[|a|..] == b;
    if k > 0 {
      LengthCut(|p.value|, k);
    }
  }

  /** How many of the pairs lie wholly within the first `k` octets of their encoding. */
  function WholeWithin(ps: seq<Pair>, k: nat): (n: nat)
    ensures n <= |ps|
  {
    if ps == [] || k < |EncodePair(ps[0])| then 0
    else 1 + WholeWithin(ps[1..], k - |EncodePair(ps[0])|)
  }

  lemma ParseWritten(p: Pair, rest: bytes, pairs: PairMap)
    requires Short(p)
    ensures ParseInto(EncodePair(p) + rest, pairs) == ParseInto(rest, Insert(pairs, p))
  {
    PairRoundTrip(p, rest);
    assert (EncodePair(p) + rest)[|EncodePair(p)|..] == rest;
  }

  lemma ParseCut(p: Pair, k: nat, pairs: PairMap)
    requires Short(p) && k < |EncodePair(p)|
    ensures ParseInto(EncodePair(p)[..k], pairs) == pairs
  {
    PairCut(p, k);
  }

  lemma FirstOf(ps: seq<Pair>, n: nat)
    requires ps != [] && n <= |ps| - 1
    ensures ps[..1 + n][0] == ps[0] && ps[..1 + n][1..] == ps[1..][..n]
  {
  }

  lemma {:induction false} ParsePrefix(ps: seq<Pair>, k: nat, pairs: PairMap)
    requires AllShort(ps) && k <= |EncodePairs(ps)|
    ensures ParseInto(EncodePairs(ps)[..k], pairs) == InsertAll(pairs, ps[..WholeWithin(ps, k)])
    decreases |ps|
  {
    if ps != [] {
      var e, rest := |EncodePair(ps[0])|, EncodePairs(ps[1..]);
      TakeOfConcat(EncodePair(ps[0]), rest, k);
      if k < e {
        ParseCut(ps[0], k, pairs);
      } else {
        ParseWritten(ps[0], rest[..k - e], pairs);
        ParsePrefix(ps[1..], k - e, Insert(pairs, ps[0]));
        FirstOf(ps, WholeWithin(ps[1..], k - e));
      }
    }
  }

  lemma Low32OfPrefix(s: bytes, k: nat)
    requires k <= |s|
    ensures Low32(s[..k]) == s[..Uint32(k)]
  {
  }

  /** Parsing any prefix of written pairs, of any length: the call looks at the first `k` modulo 2^32
      octets and inserts, in order, exactly the pairs wholly inside these. */
  lemma ParseTruncated(ps: seq<Pair>, k: nat, pairs: PairMap)
    requires AllShort(ps) && k <= |EncodePairs(ps)|
    ensures ParseInto(Low32(EncodePairs(ps)[..k]), pairs) == InsertAll(pairs, ps[..WholeWithin(ps, Uint32(k))])
  {
    Low32OfPrefix(EncodePairs(ps), k);
    ParsePrefix(ps, Uint32(k), pairs);
  }

  predicate HasKey(ps: seq<Pair>, key: bytes) {
    exists i :: 0 <= i < |ps| && ps[i].key == key
  }

  predicate FirstAt(ps: seq<Pair>, i: nat)
    requires i < |ps|
  {
    forall j :: 0 <= j < i ==> ps[j].key != ps[i].key
  }

  predicate Maps(m: PairMap, p: Pair) {
    p.key in m && m[p.key] == p.value
  }

  /** `m` holds exactly the keys of `ps`, each with the value of its first occurrence. */
  ghost predicate FirstWins(m: PairMap, ps: seq<Pair>) {
    && (forall key :: key in m <==> HasKey(ps, key))
    && (forall i :: 0 <= i < |ps| && FirstAt(ps, i) ==> Maps(m, ps[i]))
  }

  lemma HasKeyFirst(ps: seq<Pair>, key: bytes)
    requires ps != []
    ensures HasKey(ps, key) <==> ps[0].key == key || HasKey(ps[1..], key)
  {
    if i :| 0 <= i < |ps| && ps[i].key == key {
      assert i > 0 ==> ps[1..][i - 1].key == key;
    }
    if i :| 0 <= i < |ps[1..]| && ps[1..][i].key == key {
      assert ps[i + 1].key == key;
    }
  }

  lemma FirstAtLater(ps: seq<Pair>, i: nat)
    requires 0 < i < |ps| && FirstAt(ps, i)
    ensures FirstAt(ps[1..], i - 1) && ps[0].key != ps[i].key
  {
    forall j | 0 <= j < i - 1 ensures ps[1..][j].key != ps[1..][i - 1].key {
      assert ps[j + 1].key != ps[i].key;
    }
  }

  lemma {:induction false} InsertAllKeeps(pairs: PairMap, ps: seq<Pair>, p: Pair)
    requires Maps(pairs, p)
    ensures Maps(InsertAll(pairs, ps), p)
    decreases |ps|
  {
    if ps != [] {
      InsertAllKeeps(Insert(pairs, ps[0]), ps[1..], p);
    }
  }

  lemma {:induction false} InsertAllKeys(pairs: PairMap, ps: seq<Pair>, key: bytes)
    ensures key in InsertAll(pairs, ps) <==> key in pairs || HasKey(ps, key)
    decreases |ps|
  {
    if ps != [] {
      InsertAllKeys(Insert(pairs, ps[0]), ps[1..], key);
      HasKeyFirst(ps, key);
    }
  }

  lemma {:induction false} InsertAllFirst(pairs: PairMap, ps: seq<Pair>, i: nat)
    requires i < |ps| && FirstAt(ps, i) && ps[i].key !in pairs
    ensures Maps(InsertAll(pairs, ps), ps[i])
    decreases |ps|
  {
    if i == 0 {
      InsertAllKeeps(Insert(pairs, ps[0]), ps[1..], ps[0]);
    } else {
      FirstAtLater(ps, i);
      InsertAllFirst(Insert(pairs, ps[0]), ps[1..], i - 1);
    }
  }

  lemma InsertAllFirstWins(ps: seq<Pair>)
    ensures FirstWins(InsertAll(map[], ps), ps)
  {
    forall key ensures key in InsertAll(map[], ps) <==> HasKey(ps, key) {
      InsertAllKeys(map[], ps, key);
    }
    forall i | 0 <= i < |ps| && FirstAt(ps, i) ensures Maps(InsertAll(map[], ps), ps[i]) {
      InsertAllFirst(map[], ps, i);
    }
  }

  /** The map read from any prefix of written pairs holds exactly the pairs wholly inside the octets
      looked at, the first occurrence of a key winning. */
  lemma PrefixRoundTrip(ps: seq<Pair>, k: nat)
    requires AllShort(ps) && k <= |EncodePairs(ps)|
    ensures FirstWins(ParseSized(EncodePairs(ps)[..k]), ps[..WholeWithin(ps, Uint32(k))])
  {
    ParseTruncated(ps, k, map[]);
    InsertAllFirstWins(ps[..WholeWithin(ps, Uint32(k))]);
  }

  lemma {:induction false} WholeWithinAll(ps: seq<Pair>)
    ensures WholeWithin(ps, |EncodePairs(ps)|) == |ps|
    decreases |ps|
  {
    if ps != [] {
      WholeWithinAll(ps[1..]);
    }
  }

  lemma ParseAll(ps: seq<Pair>)
    requires AllShort(ps)
    ensures Parse(EncodePairs(ps)) == InsertAll(map[], ps)
  {
    var k := |EncodePairs(ps)|;
    assert EncodePairs(ps)[..k] == EncodePairs(ps);
    WholeWithinAll(ps);
    assert ps[..|ps|] == ps;
    ParsePrefix(ps, k, map[]);
  }

  /** Pairs with short enough keys and values, in fewer than 2^32 octets altogether, read back. */
  lemma PairsRoundTrip(ps: seq<Pair>)
    requires AllShort(ps) && |EncodePairs(ps)| < 0x1_0000_0000
    ensures FirstWins(ParseSized(EncodePairs(ps)), ps)
    ensures ParseSized(EncodePairs(ps)) == InsertAll(map[], ps)
  {
    Low32Whole(EncodePairs(ps));
    ParseAll(ps);
    InsertAllFirstWins(ps);
  }

  lemma {:induction false} ParsedPairsShort(u: bytes, pairs: PairMap)
    requires forall key :: key in pairs ==> Short(Pair(key, pairs[key]))
    ensures forall key :: key in ParseInto(u, pairs) ==> Short(Pair(key, ParseInto(u, pairs)[key]))
    decreases |u|
  {
    match ReadPair(u)
    case Stop =>
    case Found(p, size) => ParsedPairsShort(u[size..], Insert(pairs, p));
  }

  lemma OnlyPair(p: Pair)
    ensures EncodePairs([p]) == EncodePair(p)
    ensures InsertAll(map[], [p]) == map[p.key := p.value]
    ensures WholeWithin([p], Uint32(|EncodePair(p)|)) == (if |EncodePair(p)| < TWO_32 then 1 else 0)
  {
    assert [p][1..] == [];
    assert EncodePairs([p]) == EncodePair(p) + EncodePairs([p][1..]);
    assert InsertAll(map[], [p]) == InsertAll(Insert(map[], p), [p][1..]);
  }

  lemma AlonePrefix(p: Pair)
    requires Short(p)
    ensures ParseSized(EncodePair(p)) == (if |EncodePair(p)| < TWO_32 then map[p.key := p.value] else map[])
  {
    var k := |EncodePair(p)|;
    OnlyPair(p);
    assert EncodePairs([p])[..k] == EncodePair(p);
    assert AllShort([p]);
    ParseTruncated([p], k, map[]);
    assert [p][..1] == [p] && [p][..0] == [];
  }

  /** A written pair reads back as itself exactly when both lengths fit in 31 bits and its whole
      encoding in 32. */
  lemma PairRoundTripIff(p: Pair)
    ensures ParseSized(EncodePair(p)) == map[p.key := p.value]
       <==> |p.key| < 0x8000_0000 && |p.value| < 0x8000_0000 && |EncodePair(p)| < 0x1_0000_0000
  {
    var whole := map[p.key := p.value];
    assert p.key in whole && whole[p.key] == p.value;
    if Short(p) {
      AlonePrefix(p);
    } else {
      ParsedPairsShort(Low32(EncodePair(p)), map[]);
    }
  }

  /** Two ways to fail: a key of 2^31 octets, and a key and a value of 2^31 - 1 octets each, of which
      the call sees six octets and inserts nothing. */
  lemma LongPairsLost(p: Pair)
    ensures |p.key| == 0x8000_0000 && p.value == [] ==> ParseSized(EncodePair(p)) != map[p.key := p.value]
    ensures |p.key| == 0x7fff_ffff && |p.value| == 0x7fff_ffff ==>
              Short(p) && Uint32(|EncodePair(p)|) == 6 && ParseSized(EncodePair(p)) == map[]
  {
    PairRoundTripIff(p);
    if Short(p) {
      AlonePrefix(p);
    }
  }
}
