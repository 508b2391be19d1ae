/**
 * The quiz page: the fixed catalog of quizzes, the filter by player count,
 * and choosing or cancelling a quiz.
 */
module Quiz {
  import opened Wrappers

  /** One catalog entry. The description and icon are display-only and not modelled. */
  datatype QuizOption = QuizOption(
    id: string,
    title: string,
    players: nat,
    category: string,
    duration: string,
    difficulty: string,
    questions: nat)

  /** The catalog, in display order. */
  const Catalog: seq<QuizOption> := [
    QuizOption("math-duel-2", "Math Duel", 2, "Mathematics", "15 min", "Medium", 20),
    QuizOption("science-battle-4", "Science Battle", 4, "Science", "20 min", "Hard", 25),
    QuizOption("english-challenge-2", "English Challenge", 2, "English", "10 min", "Easy", 15),
    QuizOption("history-quiz-4", "History Quiz Arena", 4, "History", "25 min", "Medium", 30),
    QuizOption("general-knowledge-2", "GK Showdown", 2, "General Knowledge", "12 min", "Easy", 18),
    QuizOption("aptitude-test-4", "Aptitude Championship", 4, "Aptitude", "30 min", "Hard", 35)
  ]

  /** The player-count filter: every quiz, or only those for a given number of players. */
  datatype PlayerFilter = All | Only(players: nat)

  /** The entries for exactly `n` players, in order. */
  function WithPlayers(quizzes: seq<QuizOption>, n: nat): (r: seq<QuizOption>)
    ensures |r| <= |quizzes|
    ensures forall k :: 0 <= k < |r| ==> r[k].players == n
  {
    if |quizzes| == 0 then []
    else if quizzes[0].players == n then [quizzes[0]] + WithPlayers(quizzes[1..], n)
    else WithPlayers(quizzes[1..], n)
  }

  /** An entry is kept exactly when it is in the list and is for `n` players. */
  lemma {:induction false} WithPlayersMembers(quizzes: seq<QuizOption>, n: nat)
    ensures forall q :: q in WithPlayers(quizzes, n) <==> q in quizzes && q.players == n
  {
    if |quizzes| > 0 {
      WithPlayersMembers(quizzes[1..], n);
      assert quizzes == [quizzes[0]] + quizzes[1..];
    }
  }

  /** Filtering works entry by entry, so the result keeps the catalog's order. */
  lemma {:induction false} WithPlayersAppend(a: seq<QuizOption>, b: seq<QuizOption>, n: nat)
    ensures WithPlayers(a + b, n) == WithPlayers(a, n) + WithPlayers(b, n)
  {
    if |a| > 0 {
      assert (a + b)[0] == a[0];
      assert (a + b)[1..] == a[1..] + b;
      WithPlayersAppend(a[1..], b, n);
    } else {
      assert a + b == b;
    }
  }

  /** `filteredQuizzes`. */
  function Filtered(quizzes: seq<QuizOption>, filter: PlayerFilter): (r: seq<QuizOption>)
    ensures filter.All? ==> r == quizzes
    ensures filter.Only? ==> forall q :: q in r <==> q in quizzes && q.players == filter.players
  {
    match filter
    case All => quizzes
    case Only(n) =>
      WithPlayersMembers(quizzes, n);
      WithPlayers(quizzes, n)
  }

  /** Every entry is for two or four players. */
  predicate TwoOrFour(quizzes: seq<QuizOption>) {
    forall k :: 0 <= k < |quizzes| ==> quizzes[k].players == 2 || quizzes[k].players == 4
  }

  /** When every entry is for two or four players, the two filters split the
      list: together they hold every entry exactly once. */
  lemma {:induction false} FiltersPartition(quizzes: seq<QuizOption>)
    requires TwoOrFour(quizzes)
    ensures multiset(WithPlayers(quizzes, 2)) + multiset(WithPlayers(quizzes, 4)) == multiset(quizzes)
  {
    if |quizzes| > 0 {
      FiltersPartition(quizzes[1..]);
      assert quizzes == [quizzes[0]] + quizzes[1..];
    }
  }

  lemma CatalogTwoOrFour()
    ensures TwoOrFour(Catalog)
  {
  }

  /** The catalog's filters: three quizzes for two players, three for four,
      together the whole catalog. */
  lemma CatalogSplit()
    ensures multiset(Filtered(Catalog, Only(2))) + multiset(Filtered(Catalog, Only(4))) == multiset(Catalog)
    ensures |Filtered(Catalog, Only(2))| == 3 && |Filtered(Catalog, Only(4))| == 3
  {
    assert Filtered(Catalog, Only(2)) == WithPlayers(Catalog, 2);
    assert Filtered(Catalog, Only(4)) == WithPlayers(Catalog, 4);
    CatalogTwoOrFour();
    FiltersPartition(Catalog);
    CatalogTwo();
    CatalogFour();
  }

  /** The catalog's first and second halves. */
  lemma CatalogHalves()
    ensures Catalog == [Catalog[0], Catalog[1], Catalog[2]] + [Catalog[3], Catalog[4], Catalog[5]]
  {
  }

  lemma CatalogTwo()
    ensures WithPlayers(Catalog, 2) == [Catalog[0], Catalog[2], Catalog[4]]
  {
    CatalogHalves();
    WithPlayersAppend([Catalog[0], Catalog[1], Catalog[2]], [Catalog[3], Catalog[4], Catalog[5]], 2);
  }

  lemma CatalogFour()
    ensures WithPlayers(Catalog, 4) == [Catalog[1], Catalog[3], Catalog[5]]
  {
    CatalogHalves();
    WithPlayersAppend([Catalog[0], Catalog[1], Catalog[2]], [Catalog[3], Catalog[4], Catalog[5]], 4);
  }

  /** The page's state. */
  datatype QuizPage = QuizPage(selected: Option<QuizOption>, filter: PlayerFilter)

  /** `handleStartQuiz`: the chosen quiz becomes the selected one. */
  function StartQuiz(page: QuizPage, quiz: QuizOption): (r: QuizPage)
    ensures r.selected == Some(quiz) && r.filter == page.filter
  {
    page.(selected := Some(quiz))
  }

  /** Cancel: nothing is selected any more. */
  function Cancel(page: QuizPage): (r: QuizPage)
    ensures r.selected.None? && r.filter == page.filter
  {
    page.(selected := None)
  }

  /** Choosing a quiz and cancelling returns to a page with nothing selected,
      whatever was selected before. */
  lemma StartThenCancel(page: QuizPage, quiz: QuizOption)
    ensures Cancel(StartQuiz(page, quiz)) == page.(selected := None)
  {
  }
}
