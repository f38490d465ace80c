/**
 * The score arithmetic of `UserService.incrementScore` and the initial
 * profile row that `signUp` inserts. The Supabase reads and writes are
 * inputs: what `getProfile` returned, and whether the row update succeeded.
 */
module UserService {
  import opened Wrappers

  /** The columns of a `profiles` row that the game reads and writes. */
  datatype Profile = Profile(id: string, score: int, bestRecord: int)

  /** The `{ score, bestRecord }` object `incrementScore` resolves with. */
  datatype ScoreRecord = ScoreRecord(score: int, bestRecord: int)

  /** What `getProfile` produced: `null` when nobody is signed in, a thrown
      query error (for instance `.single()` finding no row), or the row. */
  datatype ProfileRead = SignedOut | ReadFailed | Row(profile: Profile)

  /** Why `incrementScore` rejected. */
  datatype ScoreError = NoProfileFound | ProfileReadError | WriteError

  /** The invariant of a stored row: the best record is never below the
      current score. */
  predicate Consistent(p: Profile) {
    p.bestRecord >= p.score
  }

  /** The row `signUp` inserts for a new user. */
  function NewProfile(id: string): (p: Profile)
    ensures p.id == id && p.score == 0 && p.bestRecord == 0
    ensures Consistent(p)
  {
    Profile(id, 0, 0)
  }

  /** The row after one increment: the score goes up by one and the best
      record becomes the larger of the old best and the new score. */
  function Bumped(p: Profile): (q: Profile)
    ensures q.id == p.id
    ensures q.score == p.score + 1
    ensures q.bestRecord >= q.score && q.bestRecord >= p.bestRecord
    ensures q.bestRecord == p.bestRecord || q.bestRecord == q.score
  {
    var newScore := p.score + 1;
    Profile(p.id, newScore, if p.bestRecord >= newScore then p.bestRecord else newScore)
  }

  /** One call of `incrementScore`: the row update it sends, if any, and
      what the call resolves or rejects with. */
  datatype Increment = Increment(sent: Option<Profile>, result: Result<ScoreRecord, ScoreError>)

  /** `incrementScore`, given what `getProfile` produced and whether the
      update of the row succeeds. */
  function IncrementScore(read: ProfileRead, writeSucceeds: bool): (r: Increment)
    ensures read == SignedOut ==> r == Increment(None, Failure(NoProfileFound))
    ensures read == ReadFailed ==> r == Increment(None, Failure(ProfileReadError))
    ensures read.Row? ==> r.sent == Some(Bumped(read.profile))
    ensures r.result.Success? <==> read.Row? && writeSucceeds
    ensures read.Row? && !writeSucceeds ==> r.result == Failure(WriteError)
    ensures r.result.Success? ==>
      r.sent.Some? && r.result.value == ScoreRecord(r.sent.value.score, r.sent.value.bestRecord)
  {
    match read
    case SignedOut => Increment(None, Failure(NoProfileFound))
    case ReadFailed => Increment(None, Failure(ProfileReadError))
    case Row(p) =>
      var q := Bumped(p);
      if writeSucceeds then Increment(Some(q), Success(ScoreRecord(q.score, q.bestRecord)))
      else Increment(Some(q), Failure(WriteError))
  }

  /** Whatever row an increment starts from, the row it writes keeps the
      invariant, and a consistent row never loses its best record. */
  lemma IncrementKeepsInvariant(read: ProfileRead, writeSucceeds: bool)
    ensures var r := IncrementScore(read, writeSucceeds);
      r.sent.Some? ==> Consistent(r.sent.value) && r.sent.value.bestRecord >= read.profile.bestRecord
    ensures var r := IncrementScore(read, writeSucceeds);
      r.result.Success? ==> r.result.value.bestRecord >= r.result.value.score
  {
  }

  /** The row after `k` successful increments. */
  function BumpedTimes(p: Profile, k: nat): Profile {
    if k == 0 then p else Bumped(BumpedTimes(p, k - 1))
  }

  /** `k` increments of a consistent row add `k` to the score, keep the
      invariant and raise the best record to the new score only if the new
      score passes it. */
  lemma {:induction false} RepeatedIncrements(p: Profile, k: nat)
    requires Consistent(p)
    ensures var q := BumpedTimes(p, k);
      q.id == p.id && q.score == p.score + k && Consistent(q) &&
      q.bestRecord == (if p.bestRecord >= p.score + k then p.bestRecord else p.score + k)
  {
    if k > 0 {
      RepeatedIncrements(p, k - 1);
    }
  }

  /** A new user who answers `k` puzzles has score and best record `k`. */
  lemma {:induction false} NewUserAfterIncrements(id: string, k: nat)
    ensures BumpedTimes(NewProfile(id), k) == Profile(id, k, k)
  {
    RepeatedIncrements(NewProfile(id), k);
  }

  /** Two worked rows: a best record equal to the score, and one above it. */
  lemma IncrementExamples()
    ensures IncrementScore(Row(Profile("u", 4, 4)), true).result == Success(ScoreRecord(5, 5))
    ensures IncrementScore(Row(Profile("u", 2, 9)), true).result == Success(ScoreRecord(3, 9))
  {
  }
}
