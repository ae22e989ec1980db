/** The category/subject filter of the leaderboard page (src/pages/Leaderboard.tsx). */
module LeaderboardPage {
  import opened Wrappers
  import opened GameTypes
  import Seqs
  import Leaderboard

  /** The page's subject selector: every subject, or one of them. */
  datatype SubjectChoice = All | Only(subject: Subject)

  function InCategory(c: RankCategory): LeaderboardEntry -> bool
  {
    (e: LeaderboardEntry) => e.category == c
  }

  /** What the page is asked to show: an entry of the chosen category that, when a
      single subject is chosen, is about that subject. */
  predicate Selected(c: RankCategory, choice: SubjectChoice, e: LeaderboardEntry)
  {
    e.category == c && (choice.Only? ==> e.subject == Some(choice.subject))
  }

  function SelectedBy(c: RankCategory, choice: SubjectChoice): LeaderboardEntry -> bool
  {
    (e: LeaderboardEntry) => Selected(c, choice, e)
  }

  /** `getFilteredLeaderboardData` for category tab `c` and subject selector `choice`,
      over the table `entries` (the page always reads `Leaderboard.Data`). */
  function FilteredLeaderboard(entries: seq<LeaderboardEntry>, c: RankCategory, choice: SubjectChoice)
    : (r: seq<LeaderboardEntry>)
    ensures choice.All? ==> r == Leaderboard.ByCategory(entries, CategoryName(c))
    ensures forall i :: 0 <= i < |r| ==> Selected(c, choice, r[i])
    ensures Seqs.IsSubsequence(r, entries)
  {
    match choice
    case All =>
      CategoryFilterSelects(entries, c);
      Leaderboard.ByCategory(entries, CategoryName(c))
    case Only(s) =>
      SubjectThenCategorySelects(entries, c, s);
      Seqs.Filter(InCategory(c), Leaderboard.BySubject(entries, s))
  }

  lemma CategoryFilterSelects(entries: seq<LeaderboardEntry>, c: RankCategory)
    ensures forall i :: 0 <= i < |Leaderboard.ByCategory(entries, CategoryName(c))| ==>
      Selected(c, All, Leaderboard.ByCategory(entries, CategoryName(c))[i])
  {
    var r := Leaderboard.ByCategory(entries, CategoryName(c));
    forall i | 0 <= i < |r| ensures Selected(c, All, r[i]) {
      CategoryNameInjective(r[i].category, c);
    }
  }

  lemma SubjectThenCategorySelects(entries: seq<LeaderboardEntry>, c: RankCategory, s: Subject)
    ensures forall i :: 0 <= i < |Seqs.Filter(InCategory(c), Leaderboard.BySubject(entries, s))| ==>
      Selected(c, Only(s), Seqs.Filter(InCategory(c), Leaderboard.BySubject(entries, s))[i])
    ensures Seqs.IsSubsequence(Seqs.Filter(InCategory(c), Leaderboard.BySubject(entries, s)), entries)
  {
    var b := Leaderboard.BySubject(entries, s);
    var r := Seqs.Filter(InCategory(c), b);
    SubsequenceTransitive(r, b, entries);
  }

  lemma {:induction false} SubsequenceTransitive<T>(a: seq<T>, b: seq<T>, c: seq<T>)
    requires Seqs.IsSubsequence(a, b) && Seqs.IsSubsequence(b, c)
    ensures Seqs.IsSubsequence(a, c)
    decreases |c|
  {
    if |a| > 0 && |c| > 0 {
      if b[0] == c[0] && Seqs.IsSubsequence(b[1..], c[1..]) {
        if a[0] == b[0] && Seqs.IsSubsequence(a[1..], b[1..]) {
          SubsequenceTransitive(a[1..], b[1..], c[1..]);
        } else {
          SubsequenceTransitive(a, b[1..], c[1..]);
        }
      } else {
        SubsequenceTransitive(a, b, c[1..]);
      }
    }
  }

  /** The page shows exactly the selected entries, in table order. */
  lemma FilteredIsSelection(entries: seq<LeaderboardEntry>, c: RankCategory, choice: SubjectChoice)
    ensures FilteredLeaderboard(entries, c, choice) == Seqs.Filter(SelectedBy(c, choice), entries)
  {
    match choice
    case All =>
      forall e: LeaderboardEntry
        ensures Leaderboard.InCategoryNamed(CategoryName(c))(e) == SelectedBy(c, choice)(e)
      {
        CategoryNameInjective(e.category, c);
      }
      Seqs.FilterSameSelection(Leaderboard.InCategoryNamed(CategoryName(c)),
                               SelectedBy(c, choice), entries);
    case Only(s) =>
      Seqs.FilterFilter(Leaderboard.OnSubject(s), InCategory(c), SelectedBy(c, choice),
                        entries);
  }
}
