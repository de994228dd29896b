/**
 * Trivia question generation: one question per (kid, template) pair whose answer is
 * filled in. Each question's options are the correct answer plus up to three literals
 * from the template's fixed pool of wrong answers. The question list is shuffled and cut
 * to a cap.
 *
 * Every `sort(() => 0.5 - Math.random())` is modelled by `Shuffle`, which may return
 * any permutation of its input. So everything proved here is about contents, not order.
 */
module Trivia {
  import opened Common
  import opened Profiles

  /** The question templates, one per `type` tag of the template table. */
  datatype QuestionType = ClothingSize | PantsPreference | ToyPreference | FavoriteColor | Age

  /** The templates in the order they are tried for each kid. */
  const QuestionTypes: seq<QuestionType> := [ClothingSize, PantsPreference, ToyPreference, FavoriteColor, Age]

  /** The question text of a template for a kid's name. */
  function QuestionText(t: QuestionType, name: string): string
  {
    match t
    case ClothingSize => "What size shirt does " + name + " wear?"
    case PantsPreference => "What type of pants does " + name + " prefer?"
    case ToyPreference => "What kind of toys does " + name + " like best?"
    case FavoriteColor => "Which is one of " + name + "'s favorite colors?"
    case Age => "How old is " + name + "?"
  }

  /** The answer a template reads from a kid; None where JavaScript would read `undefined`. */
  function AnswerOf(t: QuestionType, kid: Kid): Option<string>
  {
    match t
    case ClothingSize => kid.profile.shirtSize
    case PantsPreference => kid.profile.pantsPreference
    case ToyPreference => kid.profile.toyPreference
    case FavoriteColor =>
      (match kid.profile.favoriteColors
       case Some(colors) => if |colors| > 0 then Some(colors[0]) else None
       case None => None)
    case Age => Some(kid.age)
  }

  /** The fixed pool of wrong answers of each template. */
  function WrongAnswers(t: QuestionType): seq<string>
  {
    match t
    case ClothingSize => ["XS", "S", "M", "L", "XL", "8", "10", "12"]
    case PantsPreference => ["jeans", "leggings", "sweatpants", "shorts"]
    case ToyPreference => ["building", "dolls", "art", "sports", "books", "puzzles", "video-games"]
    case FavoriteColor => ["red", "blue", "green", "pink", "purple", "yellow", "black", "white"]
    case Age => ["5", "6", "7", "8", "9", "10", "11", "12", "13", "14", "15"]
  }

  /** `answer && answer !== ''`: the pair yields a question only if its answer is a non-empty string. */
  predicate Eligible(kid: Kid, t: QuestionType)
  {
    AnswerOf(t, kid).Some? && AnswerOf(t, kid).value != ""
  }

  /**
   * A generated question. `kind` is the template's `type` tag, kept so that the pool its
   * options come from can be named; `kid` is the kid's name.
   */
  datatype Question = Question(kind: QuestionType, question: string, correctAnswer: string,
                               answers: seq<string>, kid: string)

  /** A question without its answer options: what it asks, of whom, and its correct answer. */
  datatype Stem = Stem(kind: QuestionType, question: string, correctAnswer: string, kid: string)

  function StemOf(q: Question): Stem
  {
    Stem(q.kind, q.question, q.correctAnswer, q.kid)
  }

  /** The stem the pair (kid, template) yields. */
  function StemFor(kid: Kid, t: QuestionType): Stem
    requires Eligible(kid, t)
  {
    Stem(t, QuestionText(t, kid.name), AnswerOf(t, kid).value, kid.name)
  }

  function Stems(qs: seq<Question>): (r: seq<Stem>)
    ensures |r| == |qs|
  {
    if qs == [] then [] else Stems(qs[..|qs| - 1]) + [StemOf(qs[|qs| - 1])]
  }

  /** The stems of one kid over some templates, in template order. */
  function KidStems(kid: Kid, ts: seq<QuestionType>): seq<Stem>
  {
    if ts == [] then []
    else
      var t := ts[|ts| - 1];
      KidStems(kid, ts[..|ts| - 1]) + (if Eligible(kid, t) then [StemFor(kid, t)] else [])
  }

  /** Every eligible (kid, template) stem, kid by kid, in the order generation builds them. */
  function Candidates(kids: seq<Kid>): seq<Stem>
  {
    if kids == [] then []
    else Candidates(kids[..|kids| - 1]) + KidStems(kids[|kids| - 1], QuestionTypes)
  }

  /**
   * What every generated question satisfies: its correct answer is non-empty and appears
   * exactly once, no option appears twice, every other option is from the template's pool,
   * and there are as many of those as the pool without the correct answer allows, up to three.
   */
  ghost predicate WellBuilt(q: Question)
  {
    && q.correctAnswer != ""
    && multiset(q.answers)[q.correctAnswer] == 1
    && NoDuplicates(q.answers)
    && (forall a | a in q.answers && a != q.correctAnswer :: a in WrongAnswers(q.kind))
    && |q.answers| == 1 + Min(3, |RemoveAll(WrongAnswers(q.kind), q.correctAnswer)|)
  }

  /** Every question of a list is well built. */
  ghost predicate AllWellBuilt(qs: seq<Question>)
  {
    forall q | q in qs :: WellBuilt(q)
  }

  // ---------------------------------------------------------------------------
  // Lemmas about the pools and the candidates

  /** No pool lists a literal twice. */
  lemma WrongAnswersDistinct(t: QuestionType)
    ensures NoDuplicates(WrongAnswers(t))
    ensures |WrongAnswers(t)| >= 4
  {
    var pool := WrongAnswers(t);
    assert forall i, j | 0 <= i < j < |pool| :: pool[i] != pool[j];
    DistinctNoDuplicates(pool);
  }

  /** A list whose positions hold pairwise different values has no duplicates. */
  lemma {:induction false} DistinctNoDuplicates<T>(s: seq<T>)
    requires forall i, j | 0 <= i < j < |s| :: s[i] != s[j]
    ensures NoDuplicates(s)
  {
    if s != [] {
      var init, x := s[..|s| - 1], s[|s| - 1];
      assert s == init + [x];
      DistinctNoDuplicates(init);
      assert x !in init;
      forall y | y in s ensures multiset(s)[y] == 1 {
        if y != x {
          assert y in init;
        }
      }
    }
  }

  /** Every pool has at least four literals, so every generated question has exactly four options. */
  lemma WellBuiltHasFourOptions(q: Question)
    requires WellBuilt(q)
    ensures |q.answers| == 4
  {
    var pool := WrongAnswers(q.kind);
    WrongAnswersDistinct(q.kind);
    RemoveAllLength(pool, q.correctAnswer);
    assert multiset(pool)[q.correctAnswer] <= 1 by {
      if q.correctAnswer in pool {
        assert multiset(pool)[q.correctAnswer] == 1;
      }
    }
  }

  /** A kid's stems are exactly those of the eligible templates. */
  lemma {:induction false} KidStemsExact(kid: Kid, ts: seq<QuestionType>, c: Stem)
    ensures c in KidStems(kid, ts) <==> exists t :: t in ts && Eligible(kid, t) && c == StemFor(kid, t)
  {
    if ts != [] {
      var init, t := ts[..|ts| - 1], ts[|ts| - 1];
      KidStemsExact(kid, init, c);
      assert ts == init + [t];
      if exists u :: u in ts && Eligible(kid, u) && c == StemFor(kid, u) {
        var u :| u in ts && Eligible(kid, u) && c == StemFor(kid, u);
        if u != t {
          assert u in init;
        }
      }
    }
  }

  /** Every candidate comes from a kid in the list whose answer for the template is filled in. */
  lemma {:induction false} CandidatesSound(kids: seq<Kid>, c: Stem)
    requires c in Candidates(kids)
    ensures exists k, t :: k in kids && Eligible(k, t) && c == StemFor(k, t)
  {
    var init, kid := kids[..|kids| - 1], kids[|kids| - 1];
    assert kids == init + [kid];
    if c in Candidates(init) {
      CandidatesSound(init, c);
      var k, t :| k in init && Eligible(k, t) && c == StemFor(k, t);
      assert k in kids;
    } else {
      KidStemsExact(kid, QuestionTypes, c);
      var t :| t in QuestionTypes && Eligible(kid, t) && c == StemFor(kid, t);
      assert kid in kids;
    }
  }

  /** Every eligible pair of a kid in the list is a candidate. */
  lemma {:induction false} CandidatesComplete(kids: seq<Kid>, k: Kid, t: QuestionType)
    requires k in kids && Eligible(k, t)
    ensures StemFor(k, t) in Candidates(kids)
  {
    var init, kid := kids[..|kids| - 1], kids[|kids| - 1];
    assert kids == init + [kid];
    if k == kid {
      assert t in QuestionTypes;
      KidStemsExact(kid, QuestionTypes, StemFor(k, t));
    } else {
      assert k in init;
      CandidatesComplete(init, k, t);
    }
  }

  /**
   * The candidates are exactly the stems of the eligible (kid, template) pairs: every
   * candidate comes from a kid in the list whose answer is filled in, and every such pair
   * is a candidate.
   */
  lemma CandidatesExact(kids: seq<Kid>, c: Stem)
    ensures c in Candidates(kids) <==> exists k, t :: k in kids && Eligible(k, t) && c == StemFor(k, t)
  {
    if c in Candidates(kids) {
      CandidatesSound(kids, c);
    }
    if exists k, t :: k in kids && Eligible(k, t) && c == StemFor(k, t) {
      var k, t :| k in kids && Eligible(k, t) && c == StemFor(k, t);
      CandidatesComplete(kids, k, t);
    }
  }

  /** A kid with only a name and an age yields exactly one question: the age question. */
  lemma OnlyAgeYieldsOneCandidate(name: string, age: string, id: string, color: string, now: int)
    requires age != ""
    ensures Candidates([Kid(id, name, age, color, EmptyProfile, now)]) ==
      [Stem(Age, "How old is " + name + "?", age, name)]
  {
    var kid := Kid(id, name, age, color, EmptyProfile, now);
    var ts := QuestionTypes;
    assert [kid][..0] == [];
    assert ts[..1][..0] == [];
    assert KidStems(kid, ts[..1]) == [];
    assert ts[..2][..1] == ts[..1];
    assert KidStems(kid, ts[..2]) == [];
    assert ts[..3][..2] == ts[..2];
    assert KidStems(kid, ts[..3]) == [];
    assert ts[..4][..3] == ts[..3];
    assert KidStems(kid, ts[..4]) == [];
    assert ts[..4] == ts[..|ts| - 1];
    assert KidStems(kid, ts) == [StemFor(kid, Age)];
  }

  // ---------------------------------------------------------------------------
  // Stems of reordered and cut lists

  lemma {:induction false} StemsAppend(u: seq<Question>, v: seq<Question>)
    ensures Stems(u + v) == Stems(u) + Stems(v)
    decreases |v|
  {
    if v != [] {
      var init := v[..|v| - 1];
      assert (u + v)[..|u + v| - 1] == u + init;
      StemsAppend(u, init);
    } else {
      assert u + v == u;
    }
  }

  lemma StemsSingleton(x: Question)
    ensures Stems([x]) == [StemOf(x)]
  {
    assert [x][..0] == [];
  }

  /** Taking out one element of a list takes it out of the list's multiset. */
  lemma MultisetRemoveMiddle<T>(a: seq<T>, x: T, c: seq<T>)
    ensures multiset(a + [x] + c) == multiset(a + c) + multiset{x}
  {
  }

  /** Taking out one question takes out its stem. */
  lemma StemsRemoveAt(b: seq<Question>, k: nat)
    requires k < |b|
    ensures multiset(Stems(b)) == multiset(Stems(b[..k] + b[k + 1..])) + multiset{StemOf(b[k])}
  {
    var left, x, right := b[..k], b[k], b[k + 1..];
    var sl, sr := Stems(left), Stems(right);
    assert b == left + [x] + right;
    StemsAppend(left + [x], right);
    StemsAppend(left, [x]);
    StemsSingleton(x);
    assert Stems(b) == sl + [StemOf(x)] + sr;
    StemsAppend(left, right);
    MultisetRemoveMiddle(sl, StemOf(x), sr);
  }

  /** Reordering questions reorders their stems: the multiset of stems stays the same. */
  lemma {:induction false} StemsMultiset(a: seq<Question>, b: seq<Question>)
    requires multiset(a) == multiset(b)
    ensures multiset(Stems(a)) == multiset(Stems(b))
    decreases |a|
  {
    if a == [] {
      assert |b| == |multiset(b)| == 0;
    } else {
      var init, x := a[..|a| - 1], a[|a| - 1];
      assert a == init + [x];
      assert x in multiset(b);
      var k :| 0 <= k < |b| && b[k] == x;
      var rest := b[..k] + b[k + 1..];
      assert b == b[..k] + [x] + b[k + 1..];
      assert multiset(init) == multiset(a) - multiset{x};
      assert multiset(rest) == multiset(b) - multiset{x};
      StemsMultiset(init, rest);
      StemsRemoveAt(b, k);
      assert Stems(a) == Stems(init) + [StemOf(x)];
    }
  }

  /** The stems of a prefix are the prefix of the stems. */
  lemma StemsPrefix(s: seq<Question>, n: nat)
    requires n <= |s|
    ensures Stems(s[..n]) == Stems(s)[..n]
  {
    assert s == s[..n] + s[n..];
    StemsAppend(s[..n], s[n..]);
  }

  // ---------------------------------------------------------------------------
  // Generation

  /**
   * `sort(() => 0.5 - Math.random())`: some permutation of the input. Each position is
   * swapped with a freely chosen later one, so every permutation is a possible result.
   */
  method Shuffle<T>(s: seq<T>) returns (r: seq<T>)
    ensures multiset(r) == multiset(s)
  {
    r := s;
    var i := 0;
    while i < |r|
      invariant 0 <= i <= |r|
      invariant multiset(r) == multiset(s)
    {
      var j :| i <= j < |r|;
      r := r[i := r[j]][j := r[i]];
      i := i + 1;
    }
  }

  /**
   * The body of the template loop for one eligible pair: the pool without the correct
   * answer, shuffled and cut to three, joined with the correct answer and shuffled again.
   */
  method BuildQuestion(kid: Kid, t: QuestionType) returns (q: Question)
    requires Eligible(kid, t)
    ensures StemOf(q) == StemFor(kid, t)
    ensures WellBuilt(q)
  {
    var answer := AnswerOf(t, kid).value;
    var pool := WrongAnswers(t);
    var wrong := RemoveAll(pool, answer);
    var shuffledWrong := Shuffle(wrong);
    var picked := shuffledWrong[..Min(3, |shuffledWrong|)];
    var answers := Shuffle([answer] + picked);
    q := Question(t, QuestionText(t, kid.name), answer, answers, kid.name);

    assert |shuffledWrong| == |wrong| by {
      assert |multiset(shuffledWrong)| == |multiset(wrong)|;
    }
    PrefixMultiset(shuffledWrong, |picked|);
    WrongAnswersDistinct(t);
    OptionsFromPool(answer, pool, picked, answers);
  }

  /**
   * The options of a question are drawn correctly from any duplicate-free pool: the correct
   * answer joined with some of the pool's other literals, as many as asked for.
   */
  lemma OptionsFromPool(answer: string, pool: seq<string>, picked: seq<string>, answers: seq<string>)
    requires NoDuplicates(pool)
    requires multiset(picked) <= multiset(RemoveAll(pool, answer))
    requires |picked| == Min(3, |RemoveAll(pool, answer)|)
    requires multiset(answers) == multiset([answer] + picked)
    ensures multiset(answers)[answer] == 1
    ensures NoDuplicates(answers)
    ensures forall a | a in answers && a != answer :: a in pool
    ensures |answers| == 1 + Min(3, |RemoveAll(pool, answer)|)
  {
    var wrong := RemoveAll(pool, answer);
    RemoveAllNoDuplicates(pool, answer);
    assert multiset(answers) == multiset{answer} + multiset(picked);
    assert multiset(picked)[answer] == 0 by {
      assert answer !in wrong;
    }
    forall a | a in answers && a != answer ensures multiset(answers)[a] == 1 && a in pool {
      assert a in multiset(answers);
      assert multiset(answers)[a] == multiset(picked)[a];
      assert multiset(picked)[a] <= multiset(wrong)[a];
      assert a in wrong;
    }
    assert |answers| == 1 + |picked| by {
      assert |multiset(answers)| == |multiset{answer}| + |multiset(picked)|;
    }
  }

  /**
   * The template loop of `generateTriviaQuestions` for one kid: a question for each
   * template whose answer is filled in, in template order.
   */
  method KidQuestions(kid: Kid) returns (qs: seq<Question>)
    ensures Stems(qs) == KidStems(kid, QuestionTypes)
    ensures forall q | q in qs :: WellBuilt(q)
  {
    qs := [];
    var j := 0;
    while j < |QuestionTypes|
      invariant 0 <= j <= |QuestionTypes|
      invariant Stems(qs) == KidStems(kid, QuestionTypes[..j])
      invariant forall q | q in qs :: WellBuilt(q)
    {
      var t := QuestionTypes[j];
      var answer := AnswerOf(t, kid);
      ghost var before := qs;
      assert QuestionTypes[..j + 1][..j] == QuestionTypes[..j];
      assert QuestionTypes[..j + 1][j] == t;
      if answer.Some? && answer.value != "" {
        var q := BuildQuestion(kid, t);
        StemsAppend(qs, [q]);
        assert Stems([q]) == [StemOf(q)] by {
          assert [q][..0] == [];
        }
        qs := qs + [q];
      }
      assert Stems(qs) == Stems(before) + (if Eligible(kid, t) then [StemFor(kid, t)] else []);
      j := j + 1;
    }
    assert QuestionTypes[..j] == QuestionTypes;
  }

  /**
   * `generateTriviaQuestions` with the cap it reads from the session. With no kids it
   * returns nothing. Otherwise it returns min(cap, number of eligible pairs) questions,
   * no stem more often than the eligible pairs give it, each built as `WellBuilt` says.
   */
  method GenerateTriviaQuestions(kids: seq<Kid>, cap: nat) returns (qs: seq<Question>)
    ensures kids == [] ==> qs == []
    ensures |qs| == Min(cap, |Candidates(kids)|)
    ensures multiset(Stems(qs)) <= multiset(Candidates(kids))
    ensures AllWellBuilt(qs)
  {
    if |kids| == 0 {
      return [];
    }
    var questions: seq<Question> := [];
    var i := 0;
    while i < |kids|
      invariant 0 <= i <= |kids|
      invariant Stems(questions) == Candidates(kids[..i])
      invariant forall q | q in questions :: WellBuilt(q)
    {
      var more := KidQuestions(kids[i]);
      StemsAppend(questions, more);
      assert kids[..i + 1][..i] == kids[..i];
      questions := questions + more;
      i := i + 1;
    }
    assert kids[..i] == kids;
    var shuffled := Shuffle(questions);
    StemsMultiset(questions, shuffled);
    assert |shuffled| == |questions| by {
      assert |multiset(shuffled)| == |multiset(questions)|;
    }
    var n := Min(cap, |shuffled|);
    qs := shuffled[..n];
    StemsPrefix(shuffled, n);
    PrefixMultiset(Stems(shuffled), n);
    forall q | q in qs ensures WellBuilt(q) {
      assert q in multiset(shuffled);
      assert q in questions;
    }
  }
}
