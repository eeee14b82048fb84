/** The answer to FCGI_GET_VALUES: section 4.1 of the FastCGI Specification. */
module Values {
  import opened Bytes
  import opened Pairs

  const MAX_CONNS: bytes := [70, 67, 71, 73, 95, 77, 65, 88, 95, 67, 79, 78, 78, 83]
  const MAX_REQS: bytes := [70, 67, 71, 73, 95, 77, 65, 88, 95, 82, 69, 81, 83]
  const MPXS_CONNS: bytes := [70, 67, 71, 73, 95, 77, 80, 88, 83, 95, 67, 79, 78, 78, 83]

  const KNOWN: PairMap := map[MAX_CONNS := [49, 48, 48], MAX_REQS := [49, 48, 48, 48], MPXS_CONNS := [49]]

  function Part(keys: set<bytes>, name: bytes): seq<Pair>
    requires name in KNOWN
  {
    if name in keys then [Pair(name, KNOWN[name])] else []
  }

  function AnswerPairs(keys: set<bytes>): seq<Pair> {
    Part(keys, MAX_CONNS) + Part(keys, MAX_REQS) + Part(keys, MPXS_CONNS)
  }

  /** The content of the FCGI_GET_VALUES_RESULT record for a query. */
  function Answer(query: bytes): bytes {
    EncodePairs(AnswerPairs(Parse(query).Keys))
  }

  // ---------------------------------------------------------------- order of std::map

  predicate LexLess(a: bytes, b: bytes)
    decreases |a|
  {
    b != [] && (a == [] || a[0] < b[0] || (a[0] == b[0] && LexLess(a[1..], b[1..])))
  }

  lemma {:induction false} LexTotal(a: bytes, b: bytes)
    ensures a == b || LexLess(a, b) || LexLess(b, a)
    ensures !(LexLess(a, b) && LexLess(b, a)) && !LexLess(a, a)
    decreases |a|
  {
    if a != [] && b != [] && a[0] == b[0] {
      LexTotal(a[1..], b[1..]);
      if a[1..] == b[1..] {
        assert a == [a[0]] + a[1..] && b == [b[0]] + b[1..];
      }
    }
    if a != [] {
      LexTotal(a[1..], a[1..]);
    }
  }

  lemma {:induction false} LexTransitive(a: bytes, b: bytes, c: bytes)
    requires LexLess(a, b) && LexLess(b, c)
    ensures LexLess(a, c)
    decreases |a|
  {
    if a != [] && a[0] == b[0] == c[0] {
      LexTransitive(a[1..], b[1..], c[1..]);
    }
  }

  /** The first octet that differs decides. */
  lemma {:induction false} LexAt(a: bytes, b: bytes, n: nat)
    requires n < |a| && n < |b| && a[n] < b[n]
    requires forall i :: 0 <= i < n ==> a[i] == b[i]
    ensures LexLess(a, b)
    decreases n
  {
    if n > 0 {
      LexAt(a[1..], b[1..], n - 1);
    }
  }

  lemma ConnsBeforeReqs()
    ensures LexLess(MAX_CONNS, MAX_REQS)
  {
    LexAt(MAX_CONNS, MAX_REQS, 9);
  }

  lemma ReqsBeforeMpxs()
    ensures LexLess(MAX_REQS, MPXS_CONNS)
  {
    LexAt(MAX_REQS, MPXS_CONNS, 6);
  }

  lemma KnownOrder()
    ensures LexLess(MAX_CONNS, MAX_REQS) && LexLess(MAX_REQS, MPXS_CONNS) && LexLess(MAX_CONNS, MPXS_CONNS)
  {
    ConnsBeforeReqs();
    ReqsBeforeMpxs();
    LexTransitive(MAX_CONNS, MAX_REQS, MPXS_CONNS);
  }

  ghost predicate Least(k: bytes, keys: set<bytes>) {
    k in keys && forall o :: o in keys && o != k ==> LexLess(k, o)
  }

  lemma {:induction false} LeastExists(keys: set<bytes>)
    requires keys != {}
    ensures exists k :: Least(k, keys)
    decreases |keys|
  {
    var x :| x in keys;
    var rest := keys - {x};
    if rest == {} {
      assert forall o :: o in keys && o != x ==> o in rest;
      assert Least(x, keys);
    } else {
      LeastExists(rest);
      var y :| Least(y, rest);
      LexTotal(x, y);
      if LexLess(x, y) {
        forall o | o in keys && o != x ensures LexLess(x, o) {
          if o != y {
            assert o in rest;
            LexTransitive(x, y, o);
          }
        }
        assert Least(x, keys);
      } else {
        assert LexLess(y, x);
        assert Least(y, keys);
      }
    }
  }

  lemma {:induction false} EncodePairsAppend(ps: seq<Pair>, p: Pair)
    ensures EncodePairs(ps + [p]) == EncodePairs(ps) + EncodePair(p)
    decreases |ps|
  {
    if ps == [] {
      assert ps + [p] == [p];
      assert EncodePairs([p]) == EncodePair(p) + EncodePairs([]);
    } else {
      assert (ps + [p])[1..] == ps[1..] + [p];
      EncodePairsAppend(ps[1..], p);
    }
  }

  lemma KnownDistinct()
    ensures MAX_CONNS != MAX_REQS && MAX_REQS != MPXS_CONNS && MPXS_CONNS != MAX_CONNS
  {
    assert |MAX_CONNS| != |MAX_REQS| && |MAX_REQS| != |MPXS_CONNS| && |MPXS_CONNS| != |MAX_CONNS|;
  }

  predicate Above(done: set<bytes>, k: bytes) {
    forall d :: d in done ==> LexLess(d, k)
  }

  lemma NoneAbove(done: set<bytes>, k: bytes, name: bytes)
    requires Above(done, k) && LexLess(k, name)
    ensures name !in done
  {
    LexTotal(k, name);
  }

  lemma PartOther(done: set<bytes>, k: bytes, name: bytes)
    requires name in KNOWN && k != name
    ensures Part(done + {k}, name) == Part(done, name)
  {
  }

  lemma LastPartGrows(done: set<bytes>, k: bytes, n1: bytes, n2: bytes, n3: bytes)
    requires n1 in KNOWN && n2 in KNOWN && n3 in KNOWN && n1 != n2 && n2 != n3 && n3 != n1
    requires k !in done
    requires (k == n1 && n2 !in done && n3 !in done) || (k == n2 && n3 !in done) || k == n3
    ensures Part(done + {k}, n1) + Part(done + {k}, n2) + Part(done + {k}, n3)
         == Part(done, n1) + Part(done, n2) + Part(done, n3) + [Pair(k, KNOWN[k])]
  {
  }

  lemma KnownAbove(done: set<bytes>, k: bytes)
    requires Above(done, k)
    ensures k == MAX_CONNS ==> MAX_REQS !in done && MPXS_CONNS !in done
    ensures k == MAX_REQS ==> MPXS_CONNS !in done
  {
    KnownOrder();
    if k == MAX_CONNS {
      NoneAbove(done, MAX_CONNS, MAX_REQS);
      NoneAbove(done, MAX_CONNS, MPXS_CONNS);
    } else if k == MAX_REQS {
      NoneAbove(done, MAX_REQS, MPXS_CONNS);
    }
  }

  lemma KnownGrows(done: set<bytes>, k: bytes)
    requires k in KNOWN && k !in done && Above(done, k)
    ensures AnswerPairs(done + {k}) == AnswerPairs(done) + [Pair(k, KNOWN[k])]
  {
    KnownAbove(done, k);
    KnownDistinct();
    LastPartGrows(done, k, MAX_CONNS, MAX_REQS, MPXS_CONNS);
  }

  /** One more key, above all keys answered so far. */
  lemma AnswerGrows(done: set<bytes>, k: bytes)
    requires k !in done && Above(done, k)
    ensures EncodePairs(AnswerPairs(done + {k}))
         == EncodePairs(AnswerPairs(done)) + if k in KNOWN then EncodePair(Pair(k, KNOWN[k])) else []
  {
    if k in KNOWN {
      KnownGrows(done, k);
      EncodePairsAppend(AnswerPairs(done), Pair(k, KNOWN[k]));
    } else {
      PartOther(done, k, MAX_CONNS);
      PartOther(done, k, MAX_REQS);
      PartOther(done, k, MPXS_CONNS);
    }
  }

  lemma AboveGrows(done: set<bytes>, rest: set<bytes>, k: bytes)
    requires Least(k, rest) && forall r :: r in rest ==> Above(done, r)
    ensures forall r :: r in rest - {k} ==> Above(done + {k}, r)
  {
  }

  /** What the loop body writes for one key. */
  method WriteKnown(outputBuffer: bytes, k: bytes) returns (outputBuffer': bytes)
    ensures outputBuffer' == outputBuffer + if k in KNOWN then EncodePair(Pair(k, KNOWN[k])) else []
  {
    KnownDistinct();
    outputBuffer' := outputBuffer;
    if k == MAX_CONNS {
      outputBuffer' := WritePair(outputBuffer, k, [49, 48, 48]);
    } else if k == MAX_REQS {
      outputBuffer' := WritePair(outputBuffer, k, [49, 48, 48, 48]);
    } else if k == MPXS_CONNS {
      outputBuffer' := WritePair(outputBuffer, k, [49]);
    }
  }

  /** `done` has been answered and lies below `rest`. */
  ghost predicate Walked(keys: set<bytes>, done: set<bytes>, rest: set<bytes>) {
    done + rest == keys && done !! rest && forall r :: r in rest ==> Above(done, r)
  }

  lemma WalkOn(keys: set<bytes>, done: set<bytes>, rest: set<bytes>, k: bytes)
    requires Walked(keys, done, rest) && Least(k, rest)
    ensures Walked(keys, done + {k}, rest - {k})
  {
    AboveGrows(done, rest, k);
  }

  method TakeLeast(rest: set<bytes>) returns (k: bytes)
    requires rest != {}
    ensures Least(k, rest)
  {
    LeastExists(rest);
    k :| k in rest && forall o :: o in rest && o != k ==> LexLess(k, o);
  }

  /** The query is parsed into a map, which is then walked in key order. */
  method GetValuesResult(content: bytes) returns (outputBuffer: bytes)
    requires |content| < TWO_32
    ensures outputBuffer == Answer(content)
  {
    assert content[..|content|] == content;
    var pairs := ParsePairs(content, |content|, map[]);
    outputBuffer := WriteAnswers(pairs.Keys);
  }

  method WriteAnswers(keys: set<bytes>) returns (outputBuffer: bytes)
    ensures outputBuffer == EncodePairs(AnswerPairs(keys))
  {
    outputBuffer := [];
    var rest := keys;
    ghost var done := {};
    while rest != {}
      invariant Walked(keys, done, rest)
      invariant outputBuffer == EncodePairs(AnswerPairs(done))
      decreases |rest|
    {
      var k := TakeLeast(rest);
      AnswerGrows(done, k);
      WalkOn(keys, done, rest, k);
      outputBuffer := WriteKnown(outputBuffer, k);
      done, rest := done + {k}, rest - {k};
    }
    assert done == keys;
  }

  lemma PartHas(keys: set<bytes>, name: bytes, key: bytes)
    requires name in KNOWN
    ensures HasKey(Part(keys, name), key) <==> key == name && name in keys
  {
    if key == name && name in keys {
      assert Part(keys, name)[0].key == key;
    }
  }

  lemma HasKeyConcat(ps: seq<Pair>, qs: seq<Pair>, key: bytes)
    ensures HasKey(ps + qs, key) <==> HasKey(ps, key) || HasKey(qs, key)
  {
    if i :| 0 <= i < |ps| && ps[i].key == key {
      assert (ps + qs)[i].key == key;
    }
    if i :| 0 <= i < |qs| && qs[i].key == key {
      assert (ps + qs)[|ps| + i].key == key;
    }
    if i :| 0 <= i < |ps + qs| && (ps + qs)[i].key == key {
      assert if i < |ps| then ps[i].key == key else qs[i - |ps|].key == key;
    }
  }

  lemma AnswerKeys(keys: set<bytes>, key: bytes)
    ensures HasKey(AnswerPairs(keys), key) <==> key in keys && key in KNOWN
  {
    var a, b, c := Part(keys, MAX_CONNS), Part(keys, MAX_REQS), Part(keys, MPXS_CONNS);
    HasKeyConcat(a + b, c, key);
    HasKeyConcat(a, b, key);
    PartHas(keys, MAX_CONNS, key);
    PartHas(keys, MAX_REQS, key);
    PartHas(keys, MPXS_CONNS, key);
  }

  /** The names come once each, with their values. */
  lemma AnswerValues(keys: set<bytes>, i: nat)
    requires i < |AnswerPairs(keys)|
    ensures var p := AnswerPairs(keys)[i]; p.key in KNOWN && p.value == KNOWN[p.key] && FirstAt(AnswerPairs(keys), i)
  {
    KnownDistinct();
  }

  lemma AnswerInserted(keys: set<bytes>)
    ensures InsertAll(map[], AnswerPairs(keys)) == map key | key in keys && key in KNOWN :: KNOWN[key]
  {
    var ps := AnswerPairs(keys);
    var all := InsertAll(map[], ps);
    InsertAllFirstWins(ps);
    forall key ensures key in all <==> key in keys && key in KNOWN {
      AnswerKeys(keys, key);
    }
    forall key | key in all ensures all[key] == KNOWN[key] {
      var i :| 0 <= i < |ps| && ps[i].key == key;
      AnswerValues(keys, i);
      assert Maps(all, ps[i]);
    }
  }

  lemma AnswerParsed(query: bytes)
    ensures Parse(Answer(query)) == map key | key in Parse(query) && key in KNOWN :: KNOWN[key]
    ensures |Answer(query)| <= 56
  {
    var keys := Parse(query).Keys;
    ParseAll(AnswerPairs(keys));
    AnswerInserted(keys);
    AnswerSize(keys);
  }

  lemma NamesSpelled()
    ensures Spells(MAX_CONNS, "FCGI_MAX_CONNS") && Spells(MAX_REQS, "FCGI_MAX_REQS")
    ensures Spells(MPXS_CONNS, "FCGI_MPXS_CONNS")
  {
  }

  /** One of the three names of section 4.1. */
  predicate Asks(key: bytes) {
    Spells(key, "FCGI_MAX_CONNS") || Spells(key, "FCGI_MAX_REQS") || Spells(key, "FCGI_MPXS_CONNS")
  }

  lemma AsksKnown(key: bytes)
    ensures Asks(key) <==> key in KNOWN
    ensures Spells(key, "FCGI_MAX_CONNS") ==> key in KNOWN && KNOWN[key] == [49, 48, 48]
    ensures Spells(key, "FCGI_MAX_REQS") ==> key in KNOWN && KNOWN[key] == [49, 48, 48, 48]
    ensures Spells(key, "FCGI_MPXS_CONNS") ==> key in KNOWN && KNOWN[key] == [49]
  {
    NamesSpelled();
    SpelledOnce(MAX_CONNS, key, "FCGI_MAX_CONNS");
    SpelledOnce(MAX_REQS, key, "FCGI_MAX_REQS");
    SpelledOnce(MPXS_CONNS, key, "FCGI_MPXS_CONNS");
    KnownDistinct();
  }

  /** `answer` holds exactly the three names among the keys of `query`: 100 connections, 1000 requests,
      and 1 for multiplexing. */
  ghost predicate Answers(answer: PairMap, query: PairMap) {
    && (forall key :: key in answer <==> key in query && Asks(key))
    && (forall key :: key in answer && Spells(key, "FCGI_MAX_CONNS") ==> answer[key] == [49, 48, 48])
    && (forall key :: key in answer && Spells(key, "FCGI_MAX_REQS") ==> answer[key] == [49, 48, 48, 48])
    && (forall key :: key in answer && Spells(key, "FCGI_MPXS_CONNS") ==> answer[key] == [49])
  }

  /** For any query octets, reading the answer back gives exactly the three names among the query's
      keys, with their values. */
  lemma AnswerReadsBack(query: bytes)
    ensures Answers(Parse(Answer(query)), Parse(query))
    ensures |Answer(query)| <= 56
  {
    AnswerParsed(query);
    forall key ensures Asks(key) <==> key in KNOWN {
      AsksKnown(key);
    }
    forall key | key in Parse(Answer(query))
      ensures Spells(key, "FCGI_MAX_CONNS") ==> Parse(Answer(query))[key] == [49, 48, 48]
      ensures Spells(key, "FCGI_MAX_REQS") ==> Parse(Answer(query))[key] == [49, 48, 48, 48]
      ensures Spells(key, "FCGI_MPXS_CONNS") ==> Parse(Answer(query))[key] == [49]
    {
      AsksKnown(key);
    }
  }

  lemma AnswerShort(query: bytes)
    ensures |Answer(query)| <= 56
  {
    AnswerSize(Parse(query).Keys);
  }

  lemma AnswerSize(keys: set<bytes>)
    ensures |EncodePairs(AnswerPairs(keys))| <= 56
  {
    var a, b, c := Part(keys, MAX_CONNS), Part(keys, MAX_REQS), Part(keys, MPXS_CONNS);
    assert [] + a == a;
    EncodedPartSize([], keys, MAX_CONNS);
    EncodedPartSize(a, keys, MAX_REQS);
    EncodedPartSize(a + b, keys, MPXS_CONNS);
  }

  lemma EncodedPartSize(before: seq<Pair>, keys: set<bytes>, name: bytes)
    requires name in KNOWN
    ensures |EncodePairs(before + Part(keys, name))| <= |EncodePairs(before)| + 2 + |name| + |KNOWN[name]|
  {
    if name in keys {
      EncodePairsAppend(before, Pair(name, KNOWN[name]));
    } else {
      assert before + Part(keys, name) == before;
    }
  }
}
