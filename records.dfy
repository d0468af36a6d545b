/**
 * The two record types of the expense tracker: users and transactions,
 * and the field-wise merge that `dict.update` performs on a transaction.
 */
module Records {
  import opened Wrappers

  /** Timestamps count microseconds since the epoch, the resolution of a `datetime`. */
  const TicksPerDay: int := 86_400_000_000

  /** The day number (days since the epoch) on which a timestamp falls, as `datetime.date()` gives it. */
  function DayOf(t: int): (d: int)
    ensures d * TicksPerDay <= t < d * TicksPerDay + TicksPerDay
  {
    t / TicksPerDay
  }

  /** A registered user; `passwordHash` is the stored (encoded) bcrypt hash. */
  datatype User = User(id: string, name: string, email: string, passwordHash: string)

  /** A transaction record; `kind` is the record's "type" ("income" or "expense"), `date` a timestamp. */
  datatype Transaction = Transaction(
    id: string,
    userId: string,
    amount: real,
    kind: string,
    category: string,
    reference: string,
    description: string,
    date: int)

  /** The keys an update dictionary may carry; `None` means the key is absent. */
  datatype Patch = Patch(
    id: Option<string>,
    userId: Option<string>,
    amount: Option<real>,
    kind: Option<string>,
    category: Option<string>,
    reference: Option<string>,
    description: Option<string>,
    date: Option<int>)

  const NoChanges: Patch := Patch(None, None, None, None, None, None, None, None)

  function Pick<T>(update: Option<T>, current: T): T {
    if update.Some? then update.value else current
  }

  /** The record after `t.update(p)`: keys present in `p` take its value, all other keys keep theirs. */
  function Merge(t: Transaction, p: Patch): Transaction {
    Transaction(
      Pick(p.id, t.id),
      Pick(p.userId, t.userId),
      Pick(p.amount, t.amount),
      Pick(p.kind, t.kind),
      Pick(p.category, t.category),
      Pick(p.reference, t.reference),
      Pick(p.description, t.description),
      Pick(p.date, t.date))
  }

  /** Updating with an empty dictionary changes nothing. */
  lemma MergeNoChanges(t: Transaction)
    ensures Merge(t, NoChanges) == t
  {
  }

  /** The value a key has after two updates: the later one's, if it carries the key. */
  function Later<T>(later: Option<T>, earlier: Option<T>): Option<T> {
    if later.Some? then later else earlier
  }

  /** The update dictionary `p` followed by `q`, as one dictionary: a key of `q` wins over the same key of `p`. */
  function Then(p: Patch, q: Patch): Patch {
    Patch(
      Later(q.id, p.id),
      Later(q.userId, p.userId),
      Later(q.amount, p.amount),
      Later(q.kind, p.kind),
      Later(q.category, p.category),
      Later(q.reference, p.reference),
      Later(q.description, p.description),
      Later(q.date, p.date))
  }

  /** Two updates in a row are one update with the two dictionaries combined, the later keys winning. */
  lemma MergeCompose(t: Transaction, p: Patch, q: Patch)
    ensures Merge(Merge(t, p), q) == Merge(t, Then(p, q))
  {
  }

  /** Applying the same update twice is the same as applying it once. */
  lemma MergeIdempotent(t: Transaction, p: Patch)
    ensures Merge(Merge(t, p), p) == Merge(t, p)
  {
  }
}
