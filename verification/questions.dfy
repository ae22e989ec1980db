/** The static question bank and its two lookups (src/data/questions.ts). */
module Questions {
  import opened Wrappers
  import opened GameTypes
  import Seqs

  /** The shipped bank, in declaration order. */
  const Bank: seq<Question> := MathSection + (PhysSection + (LitSection + (HistSection + GeoSection)))

  /** The bank's sections, one per subject, as they appear in the file. */
  const MathSection: seq<Question> := [Math1, Math2, Math3]
  const PhysSection: seq<Question> := [Phys1, Phys2]
  const LitSection: seq<Question> := [Lit1, Lit2]
  const HistSection: seq<Question> := [Hist1, Hist2]
  const GeoSection: seq<Question> := [Geo1, Geo2]

  const Math1: Question :=
    Question("math-1", Mathematics, "Solve for x: 2x + 5 = 15",
      ["x = 5", "x = 10", "x = 7.5", "x = 5.5"], "x = 5", Easy, 20)
  const Math2: Question :=
    Question("math-2", Mathematics, "What is the square root of 144?",
      ["10", "12", "14", "16"], "12", Easy, 15)
  const Math3: Question :=
    Question("math-3", Mathematics,
      "If a triangle has angles measuring 30° and 60°, what is the measure of the third angle?",
      ["30°", "60°", "90°", "120°"], "90°", Medium, 25)
  const Phys1: Question :=
    Question("phys-1", Physics, "What is the SI unit of force?",
      ["Watt", "Joule", "Newton", "Pascal"], "Newton", Easy, 15)
  const Phys2: Question :=
    Question("phys-2", Physics,
      "Which law of motion states that for every action, there is an equal and opposite reaction?",
      ["First Law", "Second Law", "Third Law", "Law of Conservation"], "Third Law", Medium, 20)
  const Lit1: Question :=
    Question("lit-1", Literature, "Who wrote \"Romeo and Juliet\"?",
      ["Charles Dickens", "William Shakespeare", "Jane Austen", "Mark Twain"],
      "William Shakespeare", Easy, 15)
  const Lit2: Question :=
    Question("lit-2", Literature, "In which century did William Shakespeare live?",
      ["15th century", "16th century", "17th century", "18th century"], "16th century", Medium, 20)
  const Hist1: Question :=
    Question("hist-1", History, "In what year did World War II end?",
      ["1943", "1944", "1945", "1946"], "1945", Easy, 15)
  const Hist2: Question :=
    Question("hist-2", History, "Who was the first President of the United States?",
      ["Thomas Jefferson", "John Adams", "George Washington", "Abraham Lincoln"],
      "George Washington", Easy, 15)
  const Geo1: Question :=
    Question("geo-1", Geography, "What is the capital of France?",
      ["London", "Berlin", "Madrid", "Paris"], "Paris", Easy, 15)
  const Geo2: Question :=
    Question("geo-2", Geography, "Which is the largest ocean on Earth?",
      ["Atlantic Ocean", "Indian Ocean", "Arctic Ocean", "Pacific Ocean"], "Pacific Ocean", Easy, 15)

  /** A question that can be shown: its answer is one of its options and it has time on the clock. */
  predicate WellFormed(q: Question)
  {
    q.correctAnswer in q.options && q.timeLimit > 0
  }

  function OfSubject(subject: Subject): Question -> bool
  {
    (q: Question) => q.subject == subject
  }

  /** The bank's questions on `subject`, in bank order, listed per subject.
      `QuestionsForIsFilter` shows this is exactly the app's
      `questions.filter(q => q.subject === subject)`. */
  function QuestionsFor(subject: Subject): (r: seq<Question>)
    ensures forall i :: 0 <= i < |r| ==> r[i].subject == subject && r[i] in Bank
  {
    match subject
    case Mathematics => MathSection
    case Physics => PhysSection
    case Literature => LitSection
    case History => HistSection
    case Geography => GeoSection
  }

  /** Filtering a run of questions that share one subject keeps all or nothing. */
  lemma FilterRun(subject: Subject, run: seq<Question>, runSubject: Subject)
    requires forall i :: 0 <= i < |run| ==> run[i].subject == runSubject
    ensures Seqs.Filter(OfSubject(subject), run) == (if subject == runSubject then run else [])
  {
    if subject == runSubject {
      Seqs.FilterKeepsAll(OfSubject(subject), run);
    } else {
      Seqs.FilterDropsAll(OfSubject(subject), run);
    }
  }

  /** All questions of `run` are on `subject`. */
  predicate AllOnSubject(run: seq<Question>, subject: Subject)
  {
    forall i :: 0 <= i < |run| ==> run[i].subject == subject
  }

  /** Filtering five single-subject runs laid end to end keeps just the matching run. */
  lemma FilterSections(subject: Subject, m: seq<Question>, ph: seq<Question>, l: seq<Question>,
                       h: seq<Question>, g: seq<Question>)
    requires AllOnSubject(m, Mathematics) && AllOnSubject(ph, Physics) && AllOnSubject(l, Literature)
    requires AllOnSubject(h, History) && AllOnSubject(g, Geography)
    ensures Seqs.Filter(OfSubject(subject), m + (ph + (l + (h + g))))
         == match subject
            case Mathematics => m
            case Physics => ph
            case Literature => l
            case History => h
            case Geography => g
  {
    var p := OfSubject(subject);
    Seqs.FilterAppend(p, m, ph + (l + (h + g)));
    Seqs.FilterAppend(p, ph, l + (h + g));
    Seqs.FilterAppend(p, l, h + g);
    Seqs.FilterAppend(p, h, g);
    FilterRun(subject, m, Mathematics);
    FilterRun(subject, ph, Physics);
    FilterRun(subject, l, Literature);
    FilterRun(subject, h, History);
    FilterRun(subject, g, Geography);
  }

  /** The per-subject lists are the subject filter of the bank: same questions, same order. */
  lemma QuestionsForIsFilter(subject: Subject)
    ensures QuestionsFor(subject) == Seqs.Filter(OfSubject(subject), Bank)
  {
    FilterSections(subject, MathSection, PhysSection, LitSection, HistSection, GeoSection);
  }

  /** `getRandomQuestionForSubject` with the random index `draw` passed in: the
      `draw`-th question on the subject, or nothing when the index is past the end
      (the app's out-of-range array read). */
  function QuestionForSubject(subject: Subject, draw: nat): (r: Option<Question>)
    ensures r.Some? <==> draw < |QuestionsFor(subject)|
    ensures r.Some? ==> r.value.subject == subject && r.value in Bank
    ensures r.Some? ==> r.value == QuestionsFor(subject)[draw]
  {
    var pool := QuestionsFor(subject);
    if draw < |pool| then Some(pool[draw]) else None
  }

  /** The draw is the `draw`-th element of the app's subject filter. */
  lemma DrawIsFilterElement(subject: Subject, draw: nat)
    requires draw < |QuestionsFor(subject)|
    ensures |Seqs.Filter(OfSubject(subject), Bank)| == |QuestionsFor(subject)|
    ensures QuestionForSubject(subject, draw) == Some(Seqs.Filter(OfSubject(subject), Bank)[draw])
  {
    QuestionsForIsFilter(subject);
  }

  /** `getQuestionById`: the first question of the bank carrying `id`. */
  function QuestionById(id: string): (r: Option<Question>)
    ensures r.Some? ==> r.value in Bank && r.value.id == id
    ensures r.None? <==> forall i :: 0 <= i < |Bank| ==> Bank[i].id != id
    ensures r.Some? ==> exists i :: 0 <= i < |Bank| && Bank[i] == r.value
                                  && forall j :: 0 <= j < i ==> Bank[j].id != id
  {
    Seqs.Find((q: Question) => q.id == id, Bank)
  }

  /** Every shipped question is well formed. */
  lemma BankWellFormed()
    ensures forall i :: 0 <= i < |Bank| ==> WellFormed(Bank[i])
  {
  }

  /** No two shipped questions share an id. */
  lemma BankIdsDistinct()
    ensures forall i, j :: 0 <= i < j < |Bank| ==> Bank[i].id != Bank[j].id
  {
  }

  /** Every subject has at least one question, so the draw with index 0 always succeeds. */
  lemma EverySubjectHasQuestions(subject: Subject)
    ensures |QuestionsFor(subject)| >= 1
  {
    assert QuestionsFor(subject)[0].subject == subject;
  }

  /** Looking a bank question up by its own id gives that question back. */
  lemma QuestionByIdFindsBankQuestion(i: nat)
    requires i < |Bank|
    ensures QuestionById(Bank[i].id) == Some(Bank[i])
  {
    BankIdsDistinct();
    var r := QuestionById(Bank[i].id);
    var k :| 0 <= k < |Bank| && Bank[k] == r.value && forall j :: 0 <= j < k ==> Bank[j].id != Bank[i].id;
    assert k <= i;
    if k < i {
      assert Bank[k].id == Bank[i].id;
    }
  }
}
