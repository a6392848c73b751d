/** What the two world builders share: the chat-completion reply, the
    oracles standing for the API and for `random`, the errors that can end a
    build, the `name|description` split, the sanity checks on the requested
    counts, the retry loop with what follows it, and the loop over ordered
    pairs of characters. */
module Replies {
  import opened Wrappers
  import opened Text
  import opened Campaign

  /** `choices[0].finish_reason` and `choices[0].message.content` of one
      completion. */
  datatype Reply = Reply(finishReason: string, content: string)

  predicate Truncated(r: Reply) {
    r.finishReason == "length"
  }

  /** The API as an oracle: the reply to the k-th request of a run. */
  type Api = nat -> Reply

  /** `random` as an oracle: whether the k-th `random.random() < p` test of a
      run succeeds. */
  type Draws = nat -> bool

  datatype Reason = TooLong | InvalidResponse | OutOfRange

  /** The exceptions that can end a build. */
  datatype Error =
    | ValueError(reason: Reason)
    | IndexError
    | AttributeError(attribute: string)
    | UnboundLocalError(variable: string)

  const MaxLocations: int := 10
  const MaxCharacters: int := 10
  const RetryLimit: nat := 3

  // ---------------------------------------------------------------------
  // Count checks

  /** The four sanity checks at the top of `generate_world`. The two meant
      for `numCharacters` test `numLocations` again, so the character count
      is never checked. */
  function CheckCounts(numLocations: int, numCharacters: int): (r: Result<(), Error>)
    ensures r.Failure? <==> numLocations < 0 || numLocations > MaxLocations
    ensures r.Failure? ==> r.error == ValueError(OutOfRange)
  {
    if numLocations < 0 then Failure(ValueError(OutOfRange))
    else if numLocations > MaxLocations then Failure(ValueError(OutOfRange))
    else if numLocations < 0 then Failure(ValueError(OutOfRange))
    else if numLocations > MaxCharacters then Failure(ValueError(OutOfRange))
    else Success(())
  }

  // ---------------------------------------------------------------------
  // name|description

  /** `message = content.split("|")` followed by reads of `message[0]` and
      `message[1]`: the text before the first '|' and the text between the
      first and the second '|' (or the end). `None` when there is no '|',
      where `message[1]` raises. */
  function NameAndDescription(text: string): (r: Option<(string, string)>)
    ensures r.None? <==> '|' !in text
    ensures r.Some? ==>
      var name := r.value.0;
      var description := r.value.1;
      && '|' !in name && '|' !in description
      && |name| + 1 + |description| <= |text|
      && text[..|name|] == name && text[|name|] == '|'
      && text[|name| + 1..|name| + 1 + |description|] == description
      && (|name| + 1 + |description| == |text| || text[|name| + 1 + |description|] == '|')
  {
    var parts := Split(text, '|');
    SplitHasSecondPiece(text, '|');
    if |parts| >= 2 then
      FirstTwoPieces(text, '|');
      Some((parts[0], parts[1]))
    else None
  }

  /** A reply the builders accept: complete, and with a '|' in it. */
  predicate Usable(reply: Reply) {
    !Truncated(reply) && '|' in reply.content
  }

  /** The handling every builder gives a `name|description` reply: a
      truncated reply raises `ValueError` first, then a reply without '|'
      raises `missing`, the exception the caller turns a failed
      `message[1]` into. */
  function ParseReply(reply: Reply, missing: Error): (r: Result<(string, string), Error>)
    ensures Truncated(reply) ==> r == Failure(ValueError(TooLong))
    ensures !Truncated(reply) && '|' !in reply.content ==> r == Failure(missing)
    ensures r.Success? <==> Usable(reply)
    ensures r.Success? ==> NameAndDescription(reply.content) == Some(r.value)
  {
    if Truncated(reply) then Failure(ValueError(TooLong))
    else
      match NameAndDescription(reply.content)
      case None => Failure(missing)
      case Some(p) => Success(p)
  }

  /** Parsing inverts formatting: a reply written as `name|description`,
      with no '|' in either part, splits back into exactly those parts. */
  lemma NameAndDescriptionOfJoin(name: string, description: string)
    requires '|' !in name && '|' !in description
    ensures NameAndDescription(name + "|" + description) == Some((name, description))
  {
    var text := name + "|" + description;
    assert text[|name|] == '|';
    var nd := NameAndDescription(text).value;
    var n := |nd.0|;
    assert nd.0 == text[..|name|] == name;
    var m := |nd.1|;
    assert nd.1 == text[n + 1..] == description;
  }

  /** The first two pieces of a split are the text up to the first separator
      and the text from there up to the next separator or the end. */
  lemma FirstTwoPieces(text: string, sep: char)
    requires sep in text
    ensures var parts := Split(text, sep);
      var i := IndexOf(text, sep);
      var rest := text[i + 1..];
      && i < |text| && |parts| >= 2
      && parts[0] == text[..i] && text[i] == sep
      && parts[1] == rest[..IndexOf(rest, sep)]
  {
    var i := IndexOf(text, sep);
    var rest := text[i + 1..];
    var k :| 0 <= k < |text| && text[k] == sep;
    assert i <= k;
    assert Split(rest, sep)[0] == rest[..IndexOf(rest, sep)];
  }

  // ---------------------------------------------------------------------
  // Retrying

  /** One call of a `generate_*` function: the entity, or the exception it
      raised. */
  datatype Attempt<T> = Made(value: T) | Raised(error: Error)

  /** The retry loops catch `ValueError` only; anything else escapes. */
  predicate Rejected<T>(a: Attempt<T>) {
    a.Raised? && a.error.ValueError?
  }

  datatype Retried<T> = Got(value: T, calls: nat) | GaveUp | Crashed(error: Error)

  /** `for j in range(left): try: x = gen(); break except ValueError:
      continue`, where the call made with reply number `k` yields `gen(k)`.
      The loop stops at the first call that does not raise `ValueError`. */
  function Retry<T>(gen: nat -> Attempt<T>, cursor: nat, left: nat): (r: Retried<T>)
    ensures r.Got? ==> 1 <= r.calls <= left && gen(cursor + r.calls - 1) == Made(r.value)
    ensures r.Got? ==> forall k :: cursor <= k < cursor + r.calls - 1 ==> Rejected(gen(k))
    ensures r.GaveUp? <==> forall k :: cursor <= k < cursor + left ==> Rejected(gen(k))
    ensures r.Crashed? ==>
      exists k :: (cursor <= k < cursor + left && gen(k) == Raised(r.error) && !r.error.ValueError?
                   && forall k' :: cursor <= k' < k ==> Rejected(gen(k')))
    decreases left
  {
    if left == 0 then GaveUp
    else
      match gen(cursor)
      case Made(v) => Got(v, 1)
      case Raised(e) =>
        if e.ValueError? then
          match Retry(gen, cursor + 1, left - 1)
          case Got(v, calls) => Got(v, calls + 1)
          case GaveUp => GaveUp
          case Crashed(e') => Crashed(e')
        else Crashed(e)
  }

  /** The statement after each retry loop, `if x in locals(): continue`. The
      test asks whether the object is a KEY of the dict of local variables,
      which it never is, so nothing is ever skipped: an exhausted loop
      carries on with the value left from an earlier iteration, or raises
      `UnboundLocalError` when there is none. */
  function Settle<T>(outcome: Retried<T>, previous: Option<T>, variable: string): (r: Result<T, Error>)
    ensures outcome.Got? ==> r == Success(outcome.value)
    ensures outcome.GaveUp? && previous.Some? ==> r == Success(previous.value)
    ensures outcome.GaveUp? && previous.None? ==> r == Failure(UnboundLocalError(variable))
    ensures outcome.Crashed? ==> r == Failure(outcome.error)
  {
    match outcome
    case Got(v, _) => Success(v)
    case GaveUp => if previous.Some? then Success(previous.value) else Failure(UnboundLocalError(variable))
    case Crashed(e) => Failure(e)
  }

  /** A retry loop followed by its `in locals()` test: the value the loop
      variable holds afterwards, and the index of the next reply. */
  function Obtain<T>(gen: nat -> Attempt<T>, cursor: nat, previous: Option<T>, variable: string): (r: Result<(T, nat), Error>)
    ensures r.Success? ==> cursor < r.value.1 <= cursor + RetryLimit
    ensures (forall k :: cursor <= k < cursor + RetryLimit ==> Rejected(gen(k))) ==>
      r == if previous.Some? then Success((previous.value, cursor + RetryLimit)) else Failure(UnboundLocalError(variable))
    ensures r.Success? && !(forall k :: cursor <= k < cursor + RetryLimit ==> Rejected(gen(k))) ==>
      gen(r.value.1 - 1) == Made(r.value.0) && forall k :: cursor <= k < r.value.1 - 1 ==> Rejected(gen(k))
    ensures r.Failure? ==>
      || (previous.None? && r.error == UnboundLocalError(variable) && forall k :: cursor <= k < cursor + RetryLimit ==> Rejected(gen(k)))
      || (!r.error.ValueError? && exists k :: cursor <= k < cursor + RetryLimit && gen(k) == Raised(r.error))
    ensures gen(cursor).Raised? && !gen(cursor).error.ValueError? ==> r == Failure(gen(cursor).error)
  {
    var outcome := Retry(gen, cursor, RetryLimit);
    match Settle(outcome, previous, variable)
    case Failure(e) => Failure(e)
    case Success(v) => Success((v, if outcome.Got? then cursor + outcome.calls else cursor + RetryLimit))
  }

  /** With a generator that only ever makes a value or raises `ValueError`,
      a window holding a made value yields the first one. */
  lemma ObtainFirstMade<T>(gen: nat -> Attempt<T>, cursor: nat, previous: Option<T>, variable: string, k: nat)
    requires cursor <= k < cursor + RetryLimit && gen(k).Made?
    requires forall j :: cursor <= j < cursor + RetryLimit ==> gen(j).Made? || Rejected(gen(j))
    ensures var r := Obtain(gen, cursor, previous, variable);
      && r.Success? && r.value.1 - 1 <= k && gen(r.value.1 - 1) == Made(r.value.0)
      && forall j :: cursor <= j < r.value.1 - 1 ==> Rejected(gen(j))
  {
    assert !Rejected(gen(k));
  }

  /** `for i in range(n): step`, stopping at the first exception. */
  function Times<S>(st: S, n: nat, step: S -> Result<S, Error>): Result<S, Error>
    decreases n
  {
    if n == 0 then Success(st)
    else
      match step(st)
      case Failure(e) => Failure(e)
      case Success(st') => Times(st', n - 1, step)
  }

  // ---------------------------------------------------------------------
  // Ordered pairs

  /** `for characterA in chars: for characterB in chars: step(...)`, stopping
      at the first exception. */
  function PairsLoop<S>(st: S, chars: seq<Character>, i: nat, j: nat, step: (S, Character, Character) -> Result<S, Error>): Result<S, Error>
    requires i <= |chars| && j <= |chars|
    decreases |chars| - i, |chars| - j
  {
    if i == |chars| then Success(st)
    else if j == |chars| then PairsLoop(st, chars, i + 1, 0, step)
    else
      match step(st, chars[i], chars[j])
      case Failure(e) => Failure(e)
      case Success(st') => PairsLoop(st', chars, i, j + 1, step)
  }

  /** Whatever each step preserves, the whole loop preserves. */
  lemma {:induction false} PairsLoopPreserves<S>(st: S, chars: seq<Character>, i: nat, j: nat,
                                                 step: (S, Character, Character) -> Result<S, Error>, inv: S -> bool)
    requires i <= |chars| && j <= |chars|
    requires inv(st)
    requires forall s, a, b :: inv(s) && step(s, a, b).Success? ==> inv(step(s, a, b).value)
    ensures PairsLoop(st, chars, i, j, step).Success? ==> inv(PairsLoop(st, chars, i, j, step).value)
    decreases |chars| - i, |chars| - j
  {
    if i == |chars| {
    } else if j == |chars| {
      PairsLoopPreserves(st, chars, i + 1, 0, step, inv);
    } else {
      match step(st, chars[i], chars[j])
      case Failure(e) =>
      case Success(st') =>
        PairsLoopPreserves(st', chars, i, j + 1, step, inv);
    }
  }

  /** The two skips at the head of the pair loop: a character with itself,
      and two characters some relationship already joins in either order. */
  predicate Unrelated(w: World, a: Character, b: Character) {
    a.id != b.id && GetRelationshipBetween(w, a, b).None?
  }
}
