/** The memoised hasher of schemas, with its cycle detection (testlang/src/hash.rs). */
module HashMemo {
  import opened Options
  import opened SetChoice
  import opened Schema
  import opened Intervals
  import opened Sorting
  import opened StructuralHash
  import opened HashReferences

  datatype HashError = FoundCycle | RecordNotFound | FieldNotFound | NotAnInteger

  datatype Outcome<T> = Ok(value: T) | Err(error: HashError)

  /** The error names something that is truly wrong with the schema. */
  ghost predicate Justified(h: Hasher, s: SaneRecords, e: HashError)
  {
    match e
    case FoundCycle => Cyclic(h, s)
    case RecordNotFound => !Resolves(h, s)
    case FieldNotFound => !Resolves(h, s)
    case NotAnInteger => !IntsHoldInts(s)
  }

  /** The two memo tables, and for the proof: finished words, the order in which they were
      finished, and everything started. */
  datatype State = State(
    records: map<string, Option<Word>>,
    fields: map<string, map<string, Option<Word>>>,
    words: map<Target, Word>,
    rank: map<Target, nat>,
    started: set<Target>)

  function Entry(st: State, n: Target): Option<Option<Word>> {
    match n
    case RecordOf(r) => if r in st.records then Some(st.records[r]) else None
    case FieldOf(r, f) => if r in st.fields && f in st.fields[r] then Some(st.fields[r][f]) else None
  }

  /** The tables hold exactly the finished words, and `None` for what is under way. */
  ghost predicate Mirrors(st: State, path: seq<Target>) {
    forall n {:trigger Entry(st, n)} ::
      && (n in st.words ==> Entry(st, n) == Some(Some(st.words[n])))
      && (n in path ==> Entry(st, n) == Some(None))
      && (n in st.started <==> n in st.words || n in path)
      && (n !in st.started ==> Entry(st, n) == None)
  }

  /** Present, and if an `int` field then one with only integer values. */
  ghost predicate Clean(s: SaneRecords, n: Target) {
    Present(s, n) && (n.FieldOf? ==> GoodInts(FindField(s.named[n.record].fields, n.field).value))
  }

  /** A finished word, finished after everything it asks for. */
  ghost predicate Placed(h: Hasher, s: SaneRecords, words: map<Target, Word>, rank: map<Target, nat>, n: Target)
    requires n in words
  {
    && n in rank && rank[n] < |rank| && Clean(s, n)
    && words[n] == Eval(h, words, TermOf(h, s, n))
    && forall a | Edge(h, s, n, a) :: a in words && a in rank && rank[a] < rank[n]
  }

  ghost predicate InOrder(h: Hasher, s: SaneRecords, words: map<Target, Word>, rank: map<Target, nat>)
  {
    && (forall n {:trigger Placed(h, s, words, rank, n)} | n in words :: Placed(h, s, words, rank, n))
    && forall n | n in rank :: n in words
  }

  ghost predicate Good(h: Hasher, s: SaneRecords, st: State, path: seq<Target>)
  {
    && Mirrors(st, path)
    && InOrder(h, s, st.words, st.rank)
    && Chain(h, s, path)
    && (forall n | n in path :: Present(s, n))
    && (forall n | n in st.started :: n.record in st.fields)
  }

  /** Nothing finished is ever undone. */
  ghost predicate Grown(st: State, su: State) {
    && (forall n | n in st.words :: n in su.words && su.words[n] == st.words[n])
    && st.started <= su.started
    && (forall r | r in st.fields :: r in su.fields)
  }

  lemma {:induction false} GrownTwice(a: State, b: State, c: State)
    requires Grown(a, b) && Grown(b, c)
    ensures Grown(a, c)
  {
  }

  /** The finished words give the term this value. */
  ghost predicate Answers(h: Hasher, words: map<Target, Word>, t: Term, w: Word) {
    Eval(h, words, t) == w && forall a | Asks(t, a) :: a in words
  }

  /** The words so far are the values of as many first terms. */
  ghost predicate AnswersSome(h: Hasher, words: map<Target, Word>, ts: seq<Term>, ws: seq<Word>) {
    |ws| <= |ts| && forall i | 0 <= i < |ws| :: Answers(h, words, ts[i], ws[i])
  }

  ghost predicate AnswersAll(h: Hasher, words: map<Target, Word>, ts: seq<Term>, ws: seq<Word>) {
    |ws| == |ts| && AnswersSome(h, words, ts, ws)
  }

  lemma {:induction false} AnswersGrow(h: Hasher, st: State, su: State, t: Term, w: Word)
    requires Grown(st, su) && Answers(h, st.words, t, w)
    ensures Answers(h, su.words, t, w)
  {
    EvalAgrees(h, st.words, su.words, t);
  }

  lemma {:induction false} AnswersOneMore(h: Hasher, st: State, su: State, ts: seq<Term>, ws: seq<Word>, w: Word)
    requires Grown(st, su) && AnswersSome(h, st.words, ts, ws)
    requires |ws| < |ts| && Answers(h, su.words, ts[|ws|], w)
    ensures AnswersSome(h, su.words, ts, ws + [w])
  {
    forall i | 0 <= i < |ws|
      ensures Answers(h, su.words, ts[i], ws[i])
    {
      AnswersGrow(h, st, su, ts[i], ws[i]);
    }
  }

  lemma {:induction false} MixAnswers(h: Hasher, words: map<Target, Word>, ts: seq<Term>, ws: seq<Word>)
    requires AnswersAll(h, words, ts, ws)
    ensures Answers(h, words, Mix(ts), h.mix(ws))
    ensures forall first :: Answers(h, words, Sorted(first, ts), h.mix([first] + Sort(Bits, ws)))
  {
    assert Evals(h, words, ts) == ws;
  }

  lemma {:induction false} LitAnswers(h: Hasher, words: map<Target, Word>, w: Word)
    ensures Answers(h, words, Lit(w), w)
  {
  }

  /** Everything the term asks for is asked for by what is being hashed. */
  ghost predicate Within(h: Hasher, s: SaneRecords, here: Target, t: Term)
  {
    match t
    case Lit(_) => true
    case Ask(a) => Edge(h, s, here, a)
    case Mix(parts) => forall i | 0 <= i < |parts| :: Within(h, s, here, parts[i])
    case Sorted(_, parts) => forall i | 0 <= i < |parts| :: Within(h, s, here, parts[i])
  }

  lemma {:induction false} AsksWithin(h: Hasher, s: SaneRecords, here: Target, t: Term)
    requires forall a | Asks(t, a) :: Edge(h, s, here, a)
    ensures Within(h, s, here, t)
  {
    match t
    case Lit(_) =>
    case Ask(a) => assert Asks(t, a);
    case Mix(parts) =>
      forall i | 0 <= i < |parts|
        ensures Within(h, s, here, parts[i])
      {
        assert forall a | Asks(parts[i], a) :: Asks(t, a);
        AsksWithin(h, s, here, parts[i]);
      }
    case Sorted(_, parts) =>
      forall i | 0 <= i < |parts|
        ensures Within(h, s, here, parts[i])
      {
        assert forall a | Asks(parts[i], a) :: Asks(t, a);
        AsksWithin(h, s, here, parts[i]);
      }
  }

  lemma {:induction false} PartWithin(h: Hasher, s: SaneRecords, here: Target, ts: seq<Term>, i: nat, t: Term)
    requires Within(h, s, here, Mix(ts)) && i < |ts| && ts[i] == t
    ensures Within(h, s, here, t)
  {
  }

  /* How the state changes */

  lemma {:induction false} BeginKeepsGood(h: Hasher, s: SaneRecords, st: State, su: State, path: seq<Target>, n: Target)
    requires Good(h, s, st, path) && Present(s, n) && n !in st.started
    requires path == [] || Edge(h, s, path[|path| - 1], n)
    requires su.words == st.words && su.rank == st.rank && su.started == st.started + {n}
    requires n.record in su.fields && forall r | r in st.fields :: r in su.fields
    requires Entry(su, n) == Some(None)
    requires forall m | m != n :: Entry(su, m) == Entry(st, m)
    ensures Good(h, s, su, path + [n]) && Grown(st, su)
  {
    var longer := path + [n];
    forall i | 0 <= i < |longer| - 1
      ensures Edge(h, s, longer[i], longer[i + 1])
    {
    }
    forall m
      ensures m in longer <==> m in path || m == n
    {
    }
    forall m
      ensures && (m in su.words ==> Entry(su, m) == Some(Some(su.words[m])))
              && (m in longer ==> Entry(su, m) == Some(None))
              && (m in su.started <==> m in su.words || m in longer)
              && (m !in su.started ==> Entry(su, m) == None)
    {
      assert Entry(st, m) == Entry(st, m);
    }
  }

  lemma {:induction false} FinishKeepsGood(h: Hasher, s: SaneRecords, st: State, su: State, path: seq<Target>, n: Target, w: Word)
    requires Good(h, s, st, path + [n]) && n !in path && Clean(s, n)
    requires Answers(h, st.words, TermOf(h, s, n), w)
    requires su.words == st.words[n := w] && su.rank == st.rank[n := |st.rank|] && su.started == st.started
    requires forall r | r in st.fields :: r in su.fields
    requires Entry(su, n) == Some(Some(w))
    requires forall m | m != n :: Entry(su, m) == Entry(st, m)
    ensures Good(h, s, su, path) && Grown(st, su)
  {
    var longer := path + [n];
    assert longer[|path|] == n;
    assert Entry(st, n) == Some(None);
    forall m
      ensures m in longer <==> m in path || m == n
    {
    }
    forall m
      ensures && (m in su.words ==> Entry(su, m) == Some(Some(su.words[m])))
              && (m in path ==> Entry(su, m) == Some(None))
              && (m in su.started <==> m in su.words || m in path)
              && (m !in su.started ==> Entry(su, m) == None)
    {
      assert Entry(st, m) == Entry(st, m);
    }
    FinishInOrder(h, s, st.words, st.rank, n, w);
    forall i | 0 <= i < |path| - 1
      ensures Edge(h, s, path[i], path[i + 1])
    {
      assert Edge(h, s, longer[i], longer[i + 1]);
    }
  }

  lemma {:induction false} FinishInOrder(h: Hasher, s: SaneRecords, words: map<Target, Word>, rank: map<Target, nat>, n: Target, w: Word)
    requires InOrder(h, s, words, rank) && Clean(s, n) && n !in words
    requires Answers(h, words, TermOf(h, s, n), w)
    ensures InOrder(h, s, words[n := w], rank[n := |rank|])
  {
    var words', rank' := words[n := w], rank[n := |rank|];
    assert n !in rank;
    SizeOneMore(rank, n, |rank|);
    forall m | m in words'
      ensures Placed(h, s, words', rank', m)
    {
      if m != n {
        assert Placed(h, s, words, rank, m);
      }
      AskedAreEarlier(h, s, words, rank, n, w, m);
      EvalAgrees(h, words, words', TermOf(h, s, m));
    }
  }

  lemma {:induction false} AskedAreEarlier(h: Hasher, s: SaneRecords, words: map<Target, Word>, rank: map<Target, nat>, n: Target, w: Word, m: Target)
    requires InOrder(h, s, words, rank) && n !in words
    requires Answers(h, words, TermOf(h, s, n), w)
    requires m == n || m in words
    ensures forall a | Edge(h, s, m, a) ::
              a in words && a in rank && a != n && rank[a] < if m == n then |rank| else if m in rank then rank[m] else 0
  {
    forall a | Edge(h, s, m, a)
      ensures a in words && a in rank && a != n && rank[a] < if m == n then |rank| else if m in rank then rank[m] else 0
    {
      if m != n { assert Placed(h, s, words, rank, m); }
      assert Placed(h, s, words, rank, a);
    }
  }

  lemma {:induction false} SizeOneMore<K, V>(m: map<K, V>, k: K, v: V)
    requires k !in m
    ensures |m[k := v]| == |m| + 1
  {
  }

  /** What starting and finishing write to the tables. */
  ghost function Start(st: State, n: Target): State
    requires n.FieldOf? ==> n.record in st.fields
  {
    match n
    case RecordOf(r) =>
      State(st.records[r := None], if r !in st.fields then st.fields[r := map[]] else st.fields, st.words, st.rank, st.started + {n})
    case FieldOf(r, f) =>
      State(st.records, st.fields[r := st.fields[r][f := None]], st.words, st.rank, st.started + {n})
  }

  ghost function Finish(st: State, n: Target, w: Word): State
    requires n.FieldOf? ==> n.record in st.fields
  {
    match n
    case RecordOf(r) =>
      State(st.records[r := Some(w)], st.fields, st.words[n := w], st.rank[n := |st.rank|], st.started)
    case FieldOf(r, f) =>
      State(st.records, st.fields[r := st.fields[r][f := Some(w)]], st.words[n := w], st.rank[n := |st.rank|], st.started)
  }

  lemma {:induction false} Started(h: Hasher, s: SaneRecords, st: State, path: seq<Target>, n: Target)
    requires Good(h, s, st, path) && Present(s, n) && Entry(st, n) == None
    requires path == [] || Edge(h, s, path[|path| - 1], n)
    requires n.FieldOf? ==> n.record in st.fields
    ensures Good(h, s, Start(st, n), path + [n]) && Grown(st, Start(st, n))
    ensures n !in path && Left(s, Start(st, n).started) < Left(s, st.started)
  {
    var su := Start(st, n);
    forall m | m != n
      ensures Entry(su, m) == Entry(st, m)
    {
    }
    BeginKeepsGood(h, s, st, su, path, n);
    LeftFalls(s, st.started, su.started, n);
  }

  lemma {:induction false} Finished(h: Hasher, s: SaneRecords, first: State, st: State, path: seq<Target>, n: Target, w: Word)
    requires Good(h, s, st, path + [n]) && n !in path && Clean(s, n) && Grown(first, st)
    requires Answers(h, st.words, TermOf(h, s, n), w)
    ensures n.record in st.fields && Entry(st, n) == Some(None)
    ensures Hashed(h, s, first, Finish(st, n, w), path, Ask(n), Ok(w))
  {
    HereIsOpen(h, s, st, path + [n]);
    assert n in path + [n] && Entry(st, n) == Some(None);
    var su := Finish(st, n, w);
    forall m | m != n
      ensures Entry(su, m) == Entry(st, m)
    {
    }
    FinishKeepsGood(h, s, st, su, path, n, w);
    GrownTwice(first, st, su);
    Recalled(h, s, su, path, n, w);
  }

  /** Meeting something under way closes a cycle. */
  lemma {:induction false} MeetingCloses(h: Hasher, s: SaneRecords, path: seq<Target>, n: Target)
    requires Chain(h, s, path) && n in path && Edge(h, s, path[|path| - 1], n)
    ensures Cyclic(h, s)
  {
    var i :| 0 <= i < |path| && path[i] == n;
    var round := path[i..] + [n];
    forall j | 0 <= j < |round| - 1
      ensures Edge(h, s, round[j], round[j + 1])
    {
      assert round[j] == path[i + j];
      if j + 1 < |round| - 1 { assert round[j + 1] == path[i + j + 1]; }
    }
    assert Chain(h, s, round);
  }

  /* A run over all records */

  lemma {:induction false} NothingYet(h: Hasher, s: SaneRecords, st: State)
    requires st == State(map[], map[], map[], map[], {})
    ensures Good(h, s, st, [])
  {
  }

  ghost predicate AllRecords(s: SaneRecords, words: map<Target, Word>) {
    forall r | r in s.named :: RecordOf(r) in words
  }

  lemma {:induction false} AllIsPlaced(h: Hasher, s: SaneRecords, st: State, n: Target)
    requires Good(h, s, st, []) && AllRecords(s, st.words) && Present(s, n)
    ensures n in st.words && Placed(h, s, st.words, st.rank, n)
  {
    assert Placed(h, s, st.words, st.rank, RecordOf(n.record));
    if n.FieldOf? {
      var r := s.named[n.record];
      var f := FindField(r.fields, n.field).value;
      var i :| 0 <= i < |r.fields| && r.fields[i] == f;
      FieldsAreAsked(h, s, r, i);
    }
  }

  /** Once every record has its word, the order of finishing proves the schema sound. */
  lemma {:induction false} AllFinished(h: Hasher, s: SaneRecords, st: State)
    requires Good(h, s, st, []) && AllRecords(s, st.words)
    ensures Ranked(h, s, st.rank) && Settled(h, s, st.words) && IntsHoldInts(s)
    ensures !Cyclic(h, s) && Resolves(h, s)
  {
    forall n | Present(s, n)
      ensures n in st.rank
    {
      AllIsPlaced(h, s, st, n);
    }
    forall n | n in st.words
      ensures Placed(h, s, st.words, st.rank, n)
    {
    }
    forall r, f | r in s.named && f in s.named[r].fields
      ensures GoodInts(f)
    {
      FoundByName(s.named[r].fields, f);
      AllIsPlaced(h, s, st, FieldOf(r, f.name));
    }
    RankedIsAcyclic(h, s, st.rank);
    RankedResolves(h, s, st.rank);
  }

  /** The result: every record with its plain hash. */
  ghost predicate PlainHashes(h: Hasher, s: SaneRecords, rank: map<Target, nat>, hashes: map<string, Word>)
    requires Ranked(h, s, rank)
  {
    && (forall r :: r in hashes <==> r in s.named)
    && forall r | r in hashes :: hashes[r] == Plain(h, s, rank, RecordOf(r))
  }

  lemma {:induction false} MemoIsPlain(h: Hasher, s: SaneRecords, st: State, hashes: map<string, Word>, rank: map<Target, nat>)
    requires Good(h, s, st, []) && AllRecords(s, st.words) && Ranked(h, s, rank)
    requires forall r :: r in hashes <==> r in s.named
    requires forall r | r in hashes :: RecordOf(r) in st.words && hashes[r] == st.words[RecordOf(r)]
    ensures PlainHashes(h, s, rank, hashes)
  {
    AllFinished(h, s, st);
    forall r | r in hashes
      ensures hashes[r] == Plain(h, s, rank, RecordOf(r))
    {
      SettledIsPlain(h, s, st.words, rank, RecordOf(r));
    }
  }

  /* What is still to be started */

  ghost function Left(s: SaneRecords, started: set<Target>): nat {
    |Nodes(s) - started|
  }

  lemma {:induction false} LeftFalls(s: SaneRecords, before: set<Target>, after: set<Target>, n: Target)
    requires Present(s, n) && n !in before && n in after && before <= after
    ensures Left(s, after) < Left(s, before)
  {
    NodesArePresent(s, n);
    SubsetSize(Nodes(s) - after, Nodes(s) - before);
  }

  lemma {:induction false} LeftNeverRises(s: SaneRecords, before: set<Target>, after: set<Target>)
    requires before <= after
    ensures Left(s, after) <= Left(s, before)
  {
    SubsetSize(Nodes(s) - after, Nodes(s) - before);
  }

  /** A term was hashed: what every part of the hasher promises. */
  ghost predicate Hashed(h: Hasher, s: SaneRecords, before: State, after: State, path: seq<Target>, t: Term, r: Outcome<Word>)
  {
    match r
    case Ok(w) => Good(h, s, after, path) && Grown(before, after) && Answers(h, after.words, t, w)
    case Err(e) => Justified(h, s, e)
  }

  /** As many first terms were hashed as there are words. */
  ghost predicate HashedSome(h: Hasher, s: SaneRecords, before: State, after: State, path: seq<Target>, ts: seq<Term>, ws: seq<Word>)
  {
    Good(h, s, after, path) && Grown(before, after) && AnswersSome(h, after.words, ts, ws)
  }

  ghost predicate HashedAll(h: Hasher, s: SaneRecords, before: State, after: State, path: seq<Target>, ts: seq<Term>, r: Outcome<seq<Word>>)
  {
    match r
    case Ok(ws) => |ws| == |ts| && HashedSome(h, s, before, after, path, ts, ws)
    case Err(e) => Justified(h, s, e)
  }

  lemma {:induction false} HashedNone(h: Hasher, s: SaneRecords, st: State, path: seq<Target>, ts: seq<Term>)
    requires Good(h, s, st, path)
    ensures HashedSome(h, s, st, st, path, ts, [])
  {
  }

  lemma {:induction false} HashedOneMore(h: Hasher, s: SaneRecords, first: State, st: State, su: State, path: seq<Target>, ts: seq<Term>, ws: seq<Word>, t: Term, w: Word)
    requires HashedSome(h, s, first, st, path, ts, ws) && |ws| < |ts| && ts[|ws|] == t
    requires Hashed(h, s, st, su, path, t, Ok(w))
    ensures HashedSome(h, s, first, su, path, ts, ws + [w])
    ensures Left(s, su.started) <= Left(s, first.started)
  {
    AnswersOneMore(h, st, su, ts, ws, w);
    GrownTwice(first, st, su);
    LeftNeverRises(s, first.started, su.started);
  }

  lemma {:induction false} HashedLitMore(h: Hasher, s: SaneRecords, first: State, st: State, path: seq<Target>, ts: seq<Term>, ws: seq<Word>, w: Word)
    requires HashedSome(h, s, first, st, path, ts, ws) && |ws| < |ts| && ts[|ws|] == Lit(w)
    ensures HashedSome(h, s, first, st, path, ts, ws + [w])
  {
    HashedLit(h, s, st, path, w);
    HashedOneMore(h, s, first, st, st, path, ts, ws, Lit(w), w);
  }

  lemma {:induction false} HereIsOpen(h: Hasher, s: SaneRecords, st: State, path: seq<Target>)
    requires Good(h, s, st, path) && path != []
    ensures path[|path| - 1].record in st.fields && Present(s, path[|path| - 1])
  {
    var n := path[|path| - 1];
    assert n in path && Entry(st, n) == Some(None);
  }

  lemma {:induction false} Recalled(h: Hasher, s: SaneRecords, st: State, path: seq<Target>, n: Target, w: Word)
    requires Good(h, s, st, path) && Entry(st, n) == Some(Some(w))
    ensures Hashed(h, s, st, st, path, Ask(n), Ok(w))
  {
    assert n in st.words && st.words[n] == w;
    assert Eval(h, st.words, Ask(n)) == w;
  }

  lemma {:induction false} Reentered(h: Hasher, s: SaneRecords, st: State, path: seq<Target>, n: Target)
    requires Good(h, s, st, path) && Entry(st, n) == Some(None)
    requires path != [] ==> Edge(h, s, path[|path| - 1], n)
    ensures Justified(h, s, FoundCycle)
  {
    assert n in path;
    MeetingCloses(h, s, path, n);
  }

  lemma {:induction false} Unresolved(h: Hasher, s: SaneRecords, st: State, path: seq<Target>, n: Target)
    requires Good(h, s, st, path) && !Present(s, n)
    requires path != [] && Edge(h, s, path[|path| - 1], n)
    ensures !Resolves(h, s)
  {
    HereIsOpen(h, s, st, path);
  }

  lemma {:induction false} HashedLit(h: Hasher, s: SaneRecords, st: State, path: seq<Target>, w: Word)
    requires Good(h, s, st, path)
    ensures Hashed(h, s, st, st, path, Lit(w), Ok(w))
  {
  }

  lemma {:induction false} FieldsAreAsked(h: Hasher, s: SaneRecords, r: Record, i: nat)
    requires r.name in s.named && s.named[r.name] == r && i < |r.fields|
    ensures Edge(h, s, RecordOf(r.name), FieldOf(r.name, r.fields[i].name))
  {
    var t := RecordTerm(r);
    var a := FieldOf(r.name, r.fields[i].name);
    assert Asks(FieldAsks(r)[i], a);
    if r.kind.Union? {
      assert Asks(t.parts[i], a);
    } else {
      assert t.parts[i + 1] == FieldAsks(r)[i];
      assert Asks(t.parts[i + 1], a);
    }
  }

  lemma {:induction false} RecordAnswers(h: Hasher, words: map<Target, Word>, r: Record, ws: seq<Word>)
    requires AnswersAll(h, words, FieldAsks(r), ws)
    ensures Answers(h, words, RecordTerm(r),
                    h.mix(if r.kind.Union? then [Word(1)] + Sort(Bits, ws) else [Word(0)] + ws))
  {
    MixAnswers(h, words, FieldAsks(r), ws);
    if !r.kind.Union? {
      LitAnswers(h, words, Word(0));
      MixAnswers(h, words, [Lit(Word(0))] + FieldAsks(r), [Word(0)] + ws);
    }
  }

  lemma {:induction false} TagHashed(h: Hasher, s: SaneRecords, before: State, after: State, path: seq<Target>, tag: Word, t: Term, r: Outcome<Word>)
    requires Hashed(h, s, before, after, path, t, r)
    ensures Hashed(h, s, before, after, path, Mix([Lit(tag), t]),
                   match r case Ok(w) => Ok(h.mix([tag, w])) case Err(e) => Err(e))
  {
    if r.Ok? {
      LitAnswers(h, after.words, tag);
      MixAnswers(h, after.words, [Lit(tag), t], [tag, r.value]);
    }
  }

  lemma {:induction false} MixHashed(h: Hasher, s: SaneRecords, before: State, after: State, path: seq<Target>, ts: seq<Term>, ws: seq<Word>)
    requires HashedAll(h, s, before, after, path, ts, Ok(ws))
    ensures Hashed(h, s, before, after, path, Mix(ts), Ok(h.mix(ws)))
  {
    MixAnswers(h, after.words, ts, ws);
  }

  lemma {:induction false} FieldIsWithin(h: Hasher, s: SaneRecords, ctx: Record, f: Field)
    requires ctx.name in s.named && s.named[ctx.name] == ctx && f in ctx.fields
    ensures Within(h, s, FieldOf(ctx.name, f.name), FieldTerm(h, s.defaultEndian, ctx.name, f))
  {
    FoundByName(ctx.fields, f);
    AsksWithin(h, s, FieldOf(ctx.name, f.name), FieldTerm(h, s.defaultEndian, ctx.name, f));
  }

  /** The parts of a field that may ask for something, one by one. */
  lemma {:induction false} PartsWithin(h: Hasher, s: SaneRecords, here: Target, ctx: string, f: Field)
    requires GoodRanges(f) && Within(h, s, here, FieldTerm(h, s.defaultEndian, ctx, f))
    ensures Within(h, s, here, SizeTerm(ctx, f.len)) && Within(h, s, here, SizeTerm(ctx, f.byteSize))
    ensures Within(h, s, here, ValuesTerm(h, ctx, f)) && Within(h, s, here, ItemsTerm(ctx, f.items))
    ensures Within(h, s, here, CallTerm(h, ctx, f.fdpCall))
  {
    var parts := FieldParts(h, s.defaultEndian, ctx, f);
    assert FieldTerm(h, s.defaultEndian, ctx, f) == Mix(parts);
    PartWithin(h, s, here, parts, 1, SizeTerm(ctx, f.len));
    PartWithin(h, s, here, parts, 2, SizeTerm(ctx, f.byteSize));
    PartWithin(h, s, here, parts, 3, ValuesTerm(h, ctx, f));
    PartWithin(h, s, here, parts, 4, ItemsTerm(ctx, f.items));
    PartWithin(h, s, here, parts, 8, CallTerm(h, ctx, f.fdpCall));
  }

  /** The nine words of a field, each hashed after the one before. */
  lemma {:induction false} FieldHashed(h: Hasher, s: SaneRecords, s0: State, s1: State, s2: State, s3: State, s4: State, s5: State,
                    path: seq<Target>, ctx: string, f: Field, len: Word, size: Word, values: Word, items: Word, call: Word)
    requires GoodRanges(f)
    requires Hashed(h, s, s0, s1, path, SizeTerm(ctx, f.len), Ok(len))
    requires Hashed(h, s, s1, s2, path, SizeTerm(ctx, f.byteSize), Ok(size))
    requires Hashed(h, s, s2, s3, path, ValuesTerm(h, ctx, f), Ok(values))
    requires Hashed(h, s, s3, s4, path, ItemsTerm(ctx, f.items), Ok(items))
    requires Hashed(h, s, s4, s5, path, CallTerm(h, ctx, f.fdpCall), Ok(call))
    ensures HashedAll(h, s, s0, s5, path, FieldParts(h, s.defaultEndian, ctx, f),
                      Ok([KindCode(f.kind), len, size, values, items, TerminatorWord(h, f.terminator),
                          FormatWord(f.stringFormat), EndianWord(s.defaultEndian, f.endianness), call]))
  {
    GrownTwice(s3, s4, s5);
    GrownTwice(s2, s3, s5);
    GrownTwice(s1, s2, s5);
    GrownTwice(s0, s1, s5);
    AnswersGrow(h, s1, s5, SizeTerm(ctx, f.len), len);
    AnswersGrow(h, s2, s5, SizeTerm(ctx, f.byteSize), size);
    AnswersGrow(h, s3, s5, ValuesTerm(h, ctx, f), values);
    AnswersGrow(h, s4, s5, ItemsTerm(ctx, f.items), items);
    FieldAnswers(h, s5.words, s.defaultEndian, ctx, f, len, size, values, items, call);
  }

  lemma {:induction false} FieldAnswers(h: Hasher, words: map<Target, Word>, endian: Endianness, ctx: string, f: Field,
                     len: Word, size: Word, values: Word, items: Word, call: Word)
    requires GoodRanges(f)
    requires Answers(h, words, SizeTerm(ctx, f.len), len) && Answers(h, words, SizeTerm(ctx, f.byteSize), size)
    requires Answers(h, words, ValuesTerm(h, ctx, f), values) && Answers(h, words, ItemsTerm(ctx, f.items), items)
    requires Answers(h, words, CallTerm(h, ctx, f.fdpCall), call)
    ensures AnswersAll(h, words, FieldParts(h, endian, ctx, f),
                       [KindCode(f.kind), len, size, values, items, TerminatorWord(h, f.terminator),
                        FormatWord(f.stringFormat), EndianWord(endian, f.endianness), call])
  {
    LitAnswers(h, words, KindCode(f.kind));
    LitAnswers(h, words, TerminatorWord(h, f.terminator));
    LitAnswers(h, words, FormatWord(f.stringFormat));
    LitAnswers(h, words, EndianWord(endian, f.endianness));
  }

  lemma {:induction false} FoundByName(fields: seq<Field>, f: Field)
    requires DistinctFields(fields) && f in fields
    ensures FindField(fields, f.name) == Some(f)
  {
    var i :| 0 <= i < |fields| && fields[i] == f;
    FindsEachField(fields, i);
  }

  class Memo {
    var records: map<string, Option<Word>>
    var fields: map<string, map<string, Option<Word>>>
    ghost var words: map<Target, Word>
    ghost var rank: map<Target, nat>
    ghost var started: set<Target>

    ghost function Now(): State
      reads this
    {
      State(records, fields, words, rank, started)
    }

    constructor ()
      ensures Now() == State(map[], map[], map[], map[], {})
    {
      records, fields, words, rank, started := map[], map[], map[], map[], {};
    }
  }

  class TestLangHasher {
    const schema: SaneRecords
    const hasher: Hasher

    constructor (hasher: Hasher, lang: TestLang)
      requires Sane(Records(lang.defaultEndian, ByName(lang.records)))
      ensures this.hasher == hasher
      ensures schema == Records(lang.defaultEndian, ByName(lang.records))
    {
      this.hasher := hasher;
      schema := Records(lang.defaultEndian, ByName(lang.records));
    }

    /** Hashing may go on below `path`, whose last target belongs to `ctx` and asks for all of `t`. */
    ghost predicate Ready(st: State, path: seq<Target>, ctx: Record, t: Term) {
      && Good(hasher, schema, st, path) && IsContext(ctx)
      && path != [] && path[|path| - 1].record == ctx.name && Within(hasher, schema, path[|path| - 1], t)
    }

    ghost predicate IsContext(ctx: Record) {
      ctx.name in schema.named && schema.named[ctx.name] == ctx
    }

    /** Succeeds exactly on schemas without cycles, dangling references and `int` fields with other
        values, whatever the order of the records, and then gives each record its plain hash. */
    method Hash() returns (r: Outcome<map<string, Word>>)
      ensures r.Ok? <==> !RefersInCircle(schema) && AllReferencesResolve(schema) && IntsHoldInts(schema)
      ensures r.Ok? ==> exists rank :: Ranked(hasher, schema, rank)
      ensures r.Ok? ==> forall rank | Ranked(hasher, schema, rank) :: PlainHashes(hasher, schema, rank, r.value)
      ensures r.Err? ==> Justified(hasher, schema, r.error)
    {
      CyclesAreOfReferences(hasher, schema);
      var memo := new Memo();
      NothingYet(hasher, schema, memo.Now());
      var todo := schema.named.Keys;
      while todo != {}
        invariant Good(hasher, schema, memo.Now(), [])
        invariant todo <= schema.named.Keys
        invariant forall n | n in schema.named && n !in todo :: RecordOf(n) in memo.words
        decreases |todo|
      {
        var name := Pick(todo);
        ghost var before := memo.Now();
        var one := HashRecord(name, memo, []);
        if one.Err? {
          return Err(one.error);
        }
        assert Asks(Ask(RecordOf(name)), RecordOf(name));
        todo := todo - {name};
      }
      AllFinished(hasher, schema, memo.Now());
      var hashes := Collect(memo);
      forall rank | Ranked(hasher, schema, rank)
        ensures PlainHashes(hasher, schema, rank, hashes)
      {
        MemoIsPlain(hasher, schema, memo.Now(), hashes, rank);
      }
      r := Ok(hashes);
    }

    /** No memo entry is left open. */
    method Collect(memo: Memo) returns (hashes: map<string, Word>)
      requires Good(hasher, schema, memo.Now(), []) && AllRecords(schema, memo.words)
      ensures forall r :: r in hashes <==> r in schema.named
      ensures forall r | r in hashes :: RecordOf(r) in memo.words && hashes[r] == memo.words[RecordOf(r)]
    {
      hashes := map[];
      ghost var st := memo.Now();
      var todo := memo.records.Keys;
      while todo != {}
        invariant todo <= memo.records.Keys
        invariant forall r :: r in hashes <==> r in memo.records && r !in todo
        invariant forall r | r in hashes :: RecordOf(r) in memo.words && hashes[r] == memo.words[RecordOf(r)]
        decreases |todo|
      {
        var name := Pick(todo);
        assert Entry(st, RecordOf(name)) == Some(memo.records[name]);
        match memo.records[name] {
          case None => assert false;
          case Some(hash) => hashes := hashes[name := hash];
        }
        todo := todo - {name};
      }
      forall r
        ensures r in memo.records <==> r in schema.named
      {
        assert Entry(st, RecordOf(r)) == Entry(st, RecordOf(r));
        if RecordOf(r) in st.words { assert Placed(hasher, schema, st.words, st.rank, RecordOf(r)); }
      }
    }

    method HashRecord(name: string, memo: Memo, ghost path: seq<Target>) returns (r: Outcome<Word>)
      requires Good(hasher, schema, memo.Now(), path)
      requires if path == [] then name in schema.named else Edge(hasher, schema, path[|path| - 1], RecordOf(name))
      modifies memo
      ensures Hashed(hasher, schema, old(memo.Now()), memo.Now(), path, Ask(RecordOf(name)), r)
      decreases Left(schema, memo.started), 0
    {
      ghost var n := RecordOf(name);
      ghost var first := memo.Now();
      if name in memo.records {
        match memo.records[name]
        case Some(hash) =>
          Recalled(hasher, schema, first, path, n, hash);
          return Ok(hash);
        case None =>
          Reentered(hasher, schema, first, path, n);
          return Err(FoundCycle);
      }
      memo.records := memo.records[name := None];
      if name !in memo.fields {
        memo.fields := memo.fields[name := map[]];
      }
      if name !in schema.named {
        Unresolved(hasher, schema, first, path, n);
        return Err(RecordNotFound);
      }
      memo.started := memo.started + {n};
      assert memo.Now() == Start(first, n);
      Started(hasher, schema, first, path, n);
      r := HashStarted(schema.named[name], memo, first, path);
    }

    /** The rest of hashing a record, once it is under way. */
    method HashStarted(record: Record, memo: Memo, ghost first: State, ghost path: seq<Target>) returns (r: Outcome<Word>)
      requires IsContext(record) && RecordOf(record.name) !in path
      requires Good(hasher, schema, memo.Now(), path + [RecordOf(record.name)]) && Grown(first, memo.Now())
      modifies memo
      ensures Hashed(hasher, schema, first, memo.Now(), path, Ask(RecordOf(record.name)), r)
      decreases Left(schema, memo.started), 2
    {
      ghost var n := RecordOf(record.name);
      ghost var second := memo.Now();
      var hashed := HashFields(record, memo, path + [n]);
      if hashed.Err? {
        return Err(hashed.error);
      }
      var hashes := hashed.value;
      ghost var third := memo.Now();
      RecordAnswers(hasher, third.words, record, hashes);
      if record.kind.Union? {
        hashes := Sort(Bits, hashes);
      }
      var hash := hasher.mix([if record.kind.Union? then Word(1) else Word(0)] + hashes);
      GrownTwice(first, second, third);
      Finished(hasher, schema, first, third, path, n, hash);
      memo.records := memo.records[record.name := Some(hash)];
      memo.words, memo.rank := memo.words[n := hash], memo.rank[n := |memo.rank|];
      assert memo.Now() == Finish(third, n, hash);
      r := Ok(hash);
    }

    method HashFields(record: Record, memo: Memo, ghost path: seq<Target>) returns (r: Outcome<seq<Word>>)
      requires Good(hasher, schema, memo.Now(), path) && IsContext(record)
      requires path != [] && path[|path| - 1] == RecordOf(record.name)
      modifies memo
      ensures HashedAll(hasher, schema, old(memo.Now()), memo.Now(), path, FieldAsks(record), r)
      decreases Left(schema, memo.started), 1
    {
      var hashes: seq<Word> := [];
      ghost var first := memo.Now();
      HashedNone(hasher, schema, first, path, FieldAsks(record));
      for i := 0 to |record.fields|
        invariant |hashes| == i && HashedSome(hasher, schema, first, memo.Now(), path, FieldAsks(record), hashes)
        invariant Left(schema, memo.started) <= Left(schema, first.started)
      {
        ghost var before := memo.Now();
        FieldsAreAsked(hasher, schema, record, i);
        HereIsOpen(hasher, schema, before, path);
        var one := HashField(record.fields[i], record, memo, path);
        if one.Err? {
          return Err(one.error);
        }
        HashedOneMore(hasher, schema, first, before, memo.Now(), path, FieldAsks(record), hashes, Ask(FieldOf(record.name, record.fields[i].name)), one.value);
        hashes := hashes + [one.value];
      }
      r := Ok(hashes);
    }

    method HashField(field: Field, ctx: Record, memo: Memo, ghost path: seq<Target>) returns (r: Outcome<Word>)
      requires Good(hasher, schema, memo.Now(), path) && IsContext(ctx)
      requires field in ctx.fields && ctx.name in memo.fields
      requires path != [] && Edge(hasher, schema, path[|path| - 1], FieldOf(ctx.name, field.name))
      modifies memo
      ensures Hashed(hasher, schema, old(memo.Now()), memo.Now(), path, Ask(FieldOf(ctx.name, field.name)), r)
      decreases Left(schema, memo.started), 0
    {
      ghost var n := FieldOf(ctx.name, field.name);
      ghost var first := memo.Now();
      var entries := memo.fields[ctx.name];
      if field.name in entries {
        match entries[field.name]
        case Some(hash) =>
          Recalled(hasher, schema, first, path, n, hash);
          return Ok(hash);
        case None =>
          Reentered(hasher, schema, first, path, n);
          return Err(FoundCycle);
      }
      memo.fields := memo.fields[ctx.name := entries[field.name := None]];
      memo.started := memo.started + {n};
      assert memo.Now() == Start(first, n);
      FoundByName(ctx.fields, field);
      Started(hasher, schema, first, path, n);
      r := HashStartedField(field, ctx, memo, first, path);
    }

    /** The rest of hashing a field, once it is under way. */
    method HashStartedField(field: Field, ctx: Record, memo: Memo, ghost first: State, ghost path: seq<Target>) returns (r: Outcome<Word>)
      requires IsContext(ctx) && field in ctx.fields && FieldOf(ctx.name, field.name) !in path
      requires Good(hasher, schema, memo.Now(), path + [FieldOf(ctx.name, field.name)]) && Grown(first, memo.Now())
      modifies memo
      ensures Hashed(hasher, schema, first, memo.Now(), path, Ask(FieldOf(ctx.name, field.name)), r)
      decreases Left(schema, memo.started), 10
    {
      ghost var n := FieldOf(ctx.name, field.name);
      ghost var second := memo.Now();
      var hashed := HashFieldParts(field, ctx, memo, path + [n]);
      if hashed.Err? {
        return Err(hashed.error);
      }
      ghost var third := memo.Now();
      MixAnswers(hasher, third.words, FieldParts(hasher, schema.defaultEndian, ctx.name, field), hashed.value);
      var hash := hasher.mix(hashed.value);
      FoundByName(ctx.fields, field);
      GrownTwice(first, second, third);
      Finished(hasher, schema, first, third, path, n, hash);
      match memo.fields[ctx.name][field.name] {
        case Some(_) => assert false;
        case None => memo.fields := memo.fields[ctx.name := memo.fields[ctx.name][field.name := Some(hash)]];
      }
      memo.words, memo.rank := memo.words[n := hash], memo.rank[n := |memo.rank|];
      assert memo.Now() == Finish(third, n, hash);
      r := Ok(hash);
    }

    method HashFieldParts(field: Field, ctx: Record, memo: Memo, ghost path: seq<Target>) returns (r: Outcome<seq<Word>>)
      requires Good(hasher, schema, memo.Now(), path) && IsContext(ctx)
      requires field in ctx.fields && path != [] && path[|path| - 1] == FieldOf(ctx.name, field.name)
      modifies memo
      ensures HashedAll(hasher, schema, old(memo.Now()), memo.Now(), path, FieldParts(hasher, schema.defaultEndian, ctx.name, field), r)
      ensures r.Ok? ==> GoodInts(field)
      decreases Left(schema, memo.started), 9
    {
      ghost var s0 := memo.Now();
      FieldIsWithin(hasher, schema, ctx, field);
      PartsWithin(hasher, schema, path[|path| - 1], ctx.name, field);
      var len := HashSize(field.len, ctx, memo, path);
      if len.Err? { return Err(len.error); }
      ghost var s1 := memo.Now();
      LeftNeverRises(schema, s0.started, s1.started);
      var size := HashSize(field.byteSize, ctx, memo, path);
      if size.Err? { return Err(size.error); }
      ghost var s2 := memo.Now();
      LeftNeverRises(schema, s0.started, s2.started);
      var values := HashPossibleValues(field, ctx, memo, path);
      if values.Err? { return Err(values.error); }
      ghost var s3 := memo.Now();
      LeftNeverRises(schema, s0.started, s3.started);
      var items := HashItems(field.items, ctx, memo, path);
      if items.Err? { return Err(items.error); }
      ghost var s4 := memo.Now();
      LeftNeverRises(schema, s0.started, s4.started);
      var call := HashFdpCall(field.fdpCall, ctx, memo, path);
      if call.Err? { return Err(call.error); }
      FieldHashed(hasher, schema, s0, s1, s2, s3, s4, memo.Now(), path, ctx.name, field,
                  len.value, size.value, values.value, items.value, call.value);
      r := Ok([KindCode(field.kind), len.value, size.value, values.value, items.value, TerminatorWord(hasher, field.terminator),
               FormatWord(field.stringFormat), EndianWord(schema.defaultEndian, field.endianness), call.value]);
    }

    method HashSize(size: Option<SizeDescriptor>, ctx: Record, memo: Memo, ghost path: seq<Target>) returns (r: Outcome<Word>)
      requires Ready(memo.Now(), path, ctx, SizeTerm(ctx.name, size))
      modifies memo
      ensures Hashed(hasher, schema, old(memo.Now()), memo.Now(), path, SizeTerm(ctx.name, size), r)
      decreases Left(schema, memo.started), 5
    {
      match size
      case None =>
        HashedLit(hasher, schema, memo.Now(), path, Word(0));
        r := Ok(Word(0));
      case Some(num) =>
        r := HashNumValue(num, ctx, memo, path, AsWord);
    }

    method HashItems(items: Option<Ref>, ctx: Record, memo: Memo, ghost path: seq<Target>) returns (r: Outcome<Word>)
      requires Ready(memo.Now(), path, ctx, ItemsTerm(ctx.name, items))
      modifies memo
      ensures Hashed(hasher, schema, old(memo.Now()), memo.Now(), path, ItemsTerm(ctx.name, items), r)
      decreases Left(schema, memo.started), 5
    {
      match items
      case None =>
        HashedLit(hasher, schema, memo.Now(), path, Word(0));
        r := Ok(Word(0));
      case Some(ref) =>
        r := HashRef(ref, ctx, memo, path);
    }

    /** Constants go to a range set, and what it holds comes after the other values. */
    method Normalise(values: seq<FieldValue>) returns (r: Option<seq<FieldValue>>)
      requires Ascending(values)
      ensures r == if AllIntegers(values) then Some(Normalised(values)) else None
    {
      var normalised: seq<FieldValue>, ranges: seq<Interval> := [], [];
      for i := 0 to |values|
        invariant Ascending(values[..i]) && AllIntegers(values[..i])
        invariant normalised == Open(values[..i]) && ranges == Ranges(values[..i])
      {
        assert values[..i + 1][..i] == values[..i];
        if !values[i].IntValue? {
          assert !AllIntegers(values);
          return None;
        }
        match values[i].num
        case Single(Val(v)) => ranges := Insert(ranges, Interval(v, v));
        case Range(Val(start), Val(end)) => ranges := Insert(ranges, Interval(start, end));
        case _ => normalised := normalised + [values[i]];
      }
      assert values[..|values|] == values;
      normalised := AppendRanges(normalised, ranges);
      r := Some(normalised);
    }

    method AppendRanges(values: seq<FieldValue>, ranges: seq<Interval>) returns (all: seq<FieldValue>)
      ensures all == values + RangeValues(ranges)
    {
      all := values;
      for i := 0 to |ranges|
        invariant all == values + RangeValues(ranges)[..i]
      {
        assert RangeValues(ranges)[..i + 1] == RangeValues(ranges)[..i] + [RangeValue(ranges[i])];
        all := all + [RangeValue(ranges[i])];
      }
      assert RangeValues(ranges)[..|ranges|] == RangeValues(ranges);
    }

    method HashPossibleValues(field: Field, ctx: Record, memo: Memo, ghost path: seq<Target>) returns (r: Outcome<Word>)
      requires GoodRanges(field) && field in ctx.fields && Ready(memo.Now(), path, ctx, ValuesTerm(hasher, ctx.name, field))
      modifies memo
      ensures Hashed(hasher, schema, old(memo.Now()), memo.Now(), path, ValuesTerm(hasher, ctx.name, field), r)
      ensures r.Ok? ==> GoodInts(field)
      decreases Left(schema, memo.started), 7
    {
      if field.possibleValues.None? {
        HashedLit(hasher, schema, memo.Now(), path, Word(0));
        return Ok(Word(0));
      }
      ghost var first := memo.Now();
      var values := field.possibleValues.value;
      if field.kind.Int? {
        var normalised := Normalise(values);
        if normalised.None? {
          assert field in schema.named[ctx.name].fields && !GoodInts(field);
          return Err(NotAnInteger);
        }
        values := normalised.value;
      }
      var hashed := HashFieldValues(values, ctx, memo, path);
      if hashed.Err? {
        return Err(hashed.error);
      }
      MixHashed(hasher, schema, first, memo.Now(), path, ValueTerms(hasher, ctx.name, values), hashed.value);
      r := Ok(hasher.mix(hashed.value));
    }

    method HashFieldValues(values: seq<FieldValue>, ctx: Record, memo: Memo, ghost path: seq<Target>) returns (r: Outcome<seq<Word>>)
      requires Ready(memo.Now(), path, ctx, Mix(ValueTerms(hasher, ctx.name, values)))
      modifies memo
      ensures HashedAll(hasher, schema, old(memo.Now()), memo.Now(), path, ValueTerms(hasher, ctx.name, values), r)
      decreases Left(schema, memo.started), 6
    {
      ghost var first, terms := memo.Now(), ValueTerms(hasher, ctx.name, values);
      HashedNone(hasher, schema, first, path, terms);
      var hashes: seq<Word> := [];
      for i := 0 to |values|
        invariant |hashes| == i && HashedSome(hasher, schema, first, memo.Now(), path, terms, hashes)
        invariant Left(schema, memo.started) <= Left(schema, first.started)
      {
        ghost var before := memo.Now();
        PartWithin(hasher, schema, path[|path| - 1], terms, i, ValueTerm(hasher, ctx.name, values[i]));
        var one := HashFieldValue(values[i], ctx, memo, path);
        if one.Err? {
          return Err(one.error);
        }
        HashedOneMore(hasher, schema, first, before, memo.Now(), path, terms, hashes, ValueTerm(hasher, ctx.name, values[i]), one.value);
        hashes := hashes + [one.value];
      }
      r := Ok(hashes);
    }

    method HashFieldValue(value: FieldValue, ctx: Record, memo: Memo, ghost path: seq<Target>) returns (r: Outcome<Word>)
      requires Ready(memo.Now(), path, ctx, ValueTerm(hasher, ctx.name, value))
      modifies memo
      ensures Hashed(hasher, schema, old(memo.Now()), memo.Now(), path, ValueTerm(hasher, ctx.name, value), r)
      decreases Left(schema, memo.started), 5
    {
      ghost var first, here, parts := memo.Now(), path[|path| - 1], ValueTerm(hasher, ctx.name, value).parts;
      match value {
        case IntValue(num) =>
          PartWithin(hasher, schema, here, parts, 1, NumTerm(ctx.name, num, AsWord));
          r := HashNumValue(num, ctx, memo, path, AsWord);
          TagHashed(hasher, schema, first, memo.Now(), path, Word(0), NumTerm(ctx.name, num, AsWord), r);
          r := Tag(Word(0), r);
        case FloatValue(num) =>
          PartWithin(hasher, schema, here, parts, 1, NumTerm(ctx.name, num, FloatBits));
          r := HashNumValue(num, ctx, memo, path, FloatBits);
          TagHashed(hasher, schema, first, memo.Now(), path, Word(1), NumTerm(ctx.name, num, FloatBits), r);
          r := Tag(Word(1), r);
        case StringValue(text) =>
          PartWithin(hasher, schema, here, parts, 1, ValOrRefTerm(ctx.name, text, hasher.text));
          r := HashValOrRef(text, ctx, memo, path, hasher.text);
          TagHashed(hasher, schema, first, memo.Now(), path, Word(2), ValOrRefTerm(ctx.name, text, hasher.text), r);
          r := Tag(Word(2), r);
        case BytesValue(bytes) =>
          PartWithin(hasher, schema, here, parts, 1, ValOrRefTerm(ctx.name, bytes, hasher.bytes));
          r := HashValOrRef(bytes, ctx, memo, path, hasher.bytes);
          TagHashed(hasher, schema, first, memo.Now(), path, Word(3), ValOrRefTerm(ctx.name, bytes, hasher.bytes), r);
          r := Tag(Word(3), r);
      }
    }

    /** Mixes a tag into what was hashed, and hands on an error. */
    function Tag(tag: Word, r: Outcome<Word>): Outcome<Word> {
      match r
      case Ok(w) => Ok(hasher.mix([tag, w]))
      case Err(e) => Err(e)
    }

    method HashNumValue<T>(num: NumValue<T>, ctx: Record, memo: Memo, ghost path: seq<Target>, word: T -> Word) returns (r: Outcome<Word>)
      requires Ready(memo.Now(), path, ctx, NumTerm(ctx.name, num, word))
      modifies memo
      ensures Hashed(hasher, schema, old(memo.Now()), memo.Now(), path, NumTerm(ctx.name, num, word), r)
      decreases Left(schema, memo.started), 4
    {
      ghost var first, here, parts := memo.Now(), path[|path| - 1], NumTerm(ctx.name, num, word).parts;
      match num {
        case Single(v) =>
          PartWithin(hasher, schema, here, parts, 1, ValOrRefTerm(ctx.name, v, word));
          r := HashValOrRef(v, ctx, memo, path, word);
          TagHashed(hasher, schema, first, memo.Now(), path, Word(0), ValOrRefTerm(ctx.name, v, word), r);
          r := Tag(Word(0), r);
        case Range(start, end) =>
          PartWithin(hasher, schema, here, parts, 1, Mix([ValOrRefTerm(ctx.name, start, word), ValOrRefTerm(ctx.name, end, word)]));
          r := HashEnds(start, end, ctx, memo, path, word);
          TagHashed(hasher, schema, first, memo.Now(), path, Word(1), Mix([ValOrRefTerm(ctx.name, start, word), ValOrRefTerm(ctx.name, end, word)]), r);
          r := Tag(Word(1), r);
      }
    }

    method HashEnds<T>(start: ValOrRef<T>, end: ValOrRef<T>, ctx: Record, memo: Memo, ghost path: seq<Target>, word: T -> Word)
      returns (r: Outcome<Word>)
      requires Ready(memo.Now(), path, ctx, Mix([ValOrRefTerm(ctx.name, start, word), ValOrRefTerm(ctx.name, end, word)]))
      modifies memo
      ensures Hashed(hasher, schema, old(memo.Now()), memo.Now(), path, Mix([ValOrRefTerm(ctx.name, start, word), ValOrRefTerm(ctx.name, end, word)]), r)
      decreases Left(schema, memo.started), 3
    {
      ghost var first, here, t, u := memo.Now(), path[|path| - 1], ValOrRefTerm(ctx.name, start, word), ValOrRefTerm(ctx.name, end, word);
      PartWithin(hasher, schema, here, [t, u], 0, t);
      PartWithin(hasher, schema, here, [t, u], 1, u);
      r := HashValOrRef(start, ctx, memo, path, word);
      if r.Err? { return; }
      ghost var between := memo.Now();
      HashedNone(hasher, schema, first, path, [t, u]);
      HashedOneMore(hasher, schema, first, first, between, path, [t, u], [], t, r.value);
      var r' := HashValOrRef(end, ctx, memo, path, word);
      if r'.Err? { return r'; }
      HashedOneMore(hasher, schema, first, between, memo.Now(), path, [t, u], [r.value], u, r'.value);
      MixHashed(hasher, schema, first, memo.Now(), path, [t, u], [r.value, r'.value]);
      r := Ok(hasher.mix([r.value, r'.value]));
    }

    method HashValOrRef<T>(v: ValOrRef<T>, ctx: Record, memo: Memo, ghost path: seq<Target>, word: T -> Word) returns (r: Outcome<Word>)
      requires Ready(memo.Now(), path, ctx, ValOrRefTerm(ctx.name, v, word))
      modifies memo
      ensures Hashed(hasher, schema, old(memo.Now()), memo.Now(), path, ValOrRefTerm(ctx.name, v, word), r)
      decreases Left(schema, memo.started), 2
    {
      ghost var first := memo.Now();
      match v {
        case Val(x) =>
          HashedLit(hasher, schema, first, path, word(x));
          TagHashed(hasher, schema, first, first, path, Word(0), Lit(word(x)), Ok(word(x)));
          r := Ok(hasher.mix([Word(0), word(x)]));
        case Reference(ref) =>
          PartWithin(hasher, schema, path[|path| - 1], [Lit(Word(1)), RefTerm(ctx.name, ref)], 1, RefTerm(ctx.name, ref));
          r := HashRef(ref, ctx, memo, path);
          TagHashed(hasher, schema, first, memo.Now(), path, Word(1), RefTerm(ctx.name, ref), r);
          r := Tag(Word(1), r);
      }
    }

    method HashRef(ref: Ref, ctx: Record, memo: Memo, ghost path: seq<Target>) returns (r: Outcome<Word>)
      requires Ready(memo.Now(), path, ctx, RefTerm(ctx.name, ref))
      modifies memo
      ensures Hashed(hasher, schema, old(memo.Now()), memo.Now(), path, RefTerm(ctx.name, ref), r)
      decreases Left(schema, memo.started), 1
    {
      ghost var first, target := memo.Now(), TargetOf(ctx.name, ref);
      PartWithin(hasher, schema, path[|path| - 1], RefTerm(ctx.name, ref).parts, 1, Ask(target));
      assert Asks(Ask(target), target);
      match ref.kind {
        case ToField =>
          var field := FindField(ctx.fields, ref.name);
          if field.None? {
            Unresolved(hasher, schema, first, path, target);
            return Err(FieldNotFound);
          }
          HereIsOpen(hasher, schema, first, path);
          r := HashField(field.value, ctx, memo, path);
          TagHashed(hasher, schema, first, memo.Now(), path, Word(0), Ask(target), r);
          r := Tag(Word(0), r);
        case ToRecord =>
          r := HashRecord(ref.name, memo, path);
          TagHashed(hasher, schema, first, memo.Now(), path, Word(1), Ask(target), r);
          r := Tag(Word(1), r);
      }
    }

    method HashFdpCall(call: Option<FdpCall>, ctx: Record, memo: Memo, ghost path: seq<Target>) returns (r: Outcome<Word>)
      requires Ready(memo.Now(), path, ctx, CallTerm(hasher, ctx.name, call))
      modifies memo
      ensures Hashed(hasher, schema, old(memo.Now()), memo.Now(), path, CallTerm(hasher, ctx.name, call), r)
      decreases Left(schema, memo.started), 4
    {
      if call.None? {
        HashedLit(hasher, schema, memo.Now(), path, Word(0));
        return Ok(Word(0));
      }
      ghost var first, parts := memo.Now(), CallTerm(hasher, ctx.name, call).parts;
      ghost var terms := ArgTerms(ctx.name, call.value.args);
      PartWithin(hasher, schema, path[|path| - 1], parts, 2, Mix(terms));
      var api, size := MethodWord(hasher, call.value.api), SizeWord(call.value.typeSize);
      var hashed := HashFdpArgs(call.value.args, ctx, memo, path);
      if hashed.Err? {
        return Err(hashed.error);
      }
      var args := hasher.mix(hashed.value);
      MixHashed(hasher, schema, first, memo.Now(), path, terms, hashed.value);
      HashedNone(hasher, schema, first, path, parts);
      HashedLitMore(hasher, schema, first, first, path, parts, [], api);
      HashedLitMore(hasher, schema, first, first, path, parts, [api], size);
      HashedOneMore(hasher, schema, first, first, memo.Now(), path, parts, [api, size], Mix(terms), args);
      MixHashed(hasher, schema, first, memo.Now(), path, parts, [api, size, args]);
      r := Ok(hasher.mix([api, size, args]));
    }

    method HashFdpArgs(args: seq<FdpArg>, ctx: Record, memo: Memo, ghost path: seq<Target>) returns (r: Outcome<seq<Word>>)
      requires Ready(memo.Now(), path, ctx, Mix(ArgTerms(ctx.name, args)))
      modifies memo
      ensures HashedAll(hasher, schema, old(memo.Now()), memo.Now(), path, ArgTerms(ctx.name, args), r)
      decreases Left(schema, memo.started), 3
    {
      ghost var first, terms := memo.Now(), ArgTerms(ctx.name, args);
      HashedNone(hasher, schema, first, path, terms);
      var hashes: seq<Word> := [];
      for i := 0 to |args|
        invariant |hashes| == i && HashedSome(hasher, schema, first, memo.Now(), path, terms, hashes)
        invariant Left(schema, memo.started) <= Left(schema, first.started)
      {
        ghost var before := memo.Now();
        PartWithin(hasher, schema, path[|path| - 1], terms, i, ArgTerm(ctx.name, args[i]));
        var one := HashFdpArg(args[i], ctx, memo, path);
        if one.Err? {
          return Err(one.error);
        }
        HashedOneMore(hasher, schema, first, before, memo.Now(), path, terms, hashes, ArgTerm(ctx.name, args[i]), one.value);
        hashes := hashes + [one.value];
      }
      r := Ok(hashes);
    }

    method HashFdpArg(arg: FdpArg, ctx: Record, memo: Memo, ghost path: seq<Target>) returns (r: Outcome<Word>)
      requires Ready(memo.Now(), path, ctx, ArgTerm(ctx.name, arg))
      modifies memo
      ensures Hashed(hasher, schema, old(memo.Now()), memo.Now(), path, ArgTerm(ctx.name, arg), r)
      decreases Left(schema, memo.started), 2
    {
      ghost var first := memo.Now();
      match arg {
        case IntArg(num) =>
          HashedLit(hasher, schema, first, path, num);
          TagHashed(hasher, schema, first, first, path, Word(0), Lit(num), Ok(num));
          r := Ok(hasher.mix([Word(0), num]));
        case FloatArg(float) =>
          HashedLit(hasher, schema, first, path, float.asInteger);
          TagHashed(hasher, schema, first, first, path, Word(1), Lit(float.asInteger), Ok(float.asInteger));
          r := Ok(hasher.mix([Word(1), float.asInteger]));
        case RefArg(ref) =>
          PartWithin(hasher, schema, path[|path| - 1], [Lit(Word(2)), RefTerm(ctx.name, ref)], 1, RefTerm(ctx.name, ref));
          r := HashRef(ref, ctx, memo, path);
          TagHashed(hasher, schema, first, memo.Now(), path, Word(2), RefTerm(ctx.name, ref), r);
          r := Tag(Word(2), r);
      }
    }
  }
}
