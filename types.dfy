/** The records of `lib/types.js`. Dates are abstracted to integer timestamps (milliseconds);
    the store-assigned `id` of a session is not part of the typed view. */
module Types {
  import opened Util

  datatype Difficulty = Easy | Medium | Hard

  datatype Question = Question(
    id: string,
    question: string,
    options: seq<string>,
    correctAnswer: int,
    explanation: Option<string>,
    difficulty: Difficulty)

  datatype Quiz = Quiz(
    id: string,
    title: string,
    description: string,
    questions: seq<Question>,
    createdAt: int,
    createdBy: string,
    difficulty: Difficulty,
    subject: string,          // "" stands for a missing or empty subject
    timeLimit: Option<int>)

  datatype UserAnswer = UserAnswer(
    questionId: string,
    selectedAnswer: int,
    isCorrect: bool,
    timeSpent: int)

  /** A completed attempt; `quiz` is the embedded copy of the quiz, which stored records may
      lack. */
  datatype QuizSession = QuizSession(
    quizId: string,
    userId: string,
    answers: seq<UserAnswer>,
    score: int,
    totalQuestions: nat,
    completedAt: int,
    timeSpent: int,
    quiz: Option<Quiz>)

  datatype QuizStats = QuizStats(
    totalQuizzes: nat,
    averageScore: real,
    totalTimeSpent: int,
    strongestSubjects: seq<string>,
    weakestSubjects: seq<string>,
    recentPerformance: seq<int>)
}
