/** The game's shared records and enumerations (src/types/game.ts). Every union
    type of string literals becomes a closed datatype, every optional field an
    `Option`, and every `number` an unbounded `int`. */
module GameTypes {
  import opened Wrappers

  datatype Subject = Mathematics | Physics | Literature | History | Geography

  datatype RankCategory = School | District | State | Country | Global

  datatype QuestionDifficulty = Easy | Medium | Hard

  datatype Question = Question(
    id: string,
    subject: Subject,
    text: string,
    options: seq<string>,
    correctAnswer: string,
    difficulty: QuestionDifficulty,
    timeLimit: int  // seconds
  )

  datatype Player = Player(
    id: string,
    name: string,
    avatar: string,
    health: int,
    school: Option<string>,
    district: Option<string>,
    state: Option<string>,
    country: string
  )

  datatype DuelStatus = Waiting | Active | Paused | Completed

  /** One match. The app's `players: [Player, Player]` pair is kept as two
      fields: `human` is index 0 and `opponent` is index 1. */
  datatype DuelState = DuelState(
    id: string,
    human: Player,
    opponent: Player,
    currentRound: int,
    maxRounds: int,
    currentQuestion: Option<Question>,
    timeRemaining: Option<int>,
    roundDamage: int,
    winnerId: Option<string>,
    status: DuelStatus
  )

  /** A leaderboard row; `winRate` is held in tenths of a percent (84.4 is 844). */
  datatype LeaderboardEntry = LeaderboardEntry(
    playerId: string,
    playerName: string,
    playerAvatar: string,
    rank: int,
    wins: int,
    totalMatches: int,
    winRate: int,
    subject: Option<Subject>,
    category: RankCategory,
    school: Option<string>,
    district: Option<string>,
    state: Option<string>,
    country: string
  )

  /** The string value the app uses for each category. */
  function CategoryName(c: RankCategory): string
  {
    match c
    case School => "School"
    case District => "District"
    case State => "State"
    case Country => "Country"
    case Global => "Global"
  }

  /** Category names tell categories apart, so comparing names is comparing categories. */
  lemma CategoryNameInjective(a: RankCategory, b: RankCategory)
    ensures CategoryName(a) == CategoryName(b) <==> a == b
  {
    if a != b {
      assert CategoryName(a)[0] != CategoryName(b)[0] || |CategoryName(a)| != |CategoryName(b)|;
    }
  }
}
