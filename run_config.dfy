/** The run configuration the execute handler sends to `/set-config`, built from the
    three numeric inputs with JavaScript's `x || fallback`. */
module RunConfig {

  /** A value held by one of the three numeric inputs. It starts as a number
      (`useState(20)`) and becomes the input's text once the operator edits it,
      because a change event delivers `e.target.value`, which is a string. */
  datatype Field = Num(n: int) | Text(s: string)

  /** JavaScript truthiness of a field value: a number is falsy only when it is 0,
      a string only when it is empty (so the text "0" is truthy). */
  predicate Truthy(v: Field): (b: bool)
    ensures b <==> v != Num(0) && v != Text("")
  {
    match v
    case Num(n) => n != 0
    case Text(s) => s != ""
  }

  /** Initial values of the three inputs. */
  const InitialBatchSize: int := 20
  const InitialMaxTransactionCount: int := 100
  const InitialMaxFailureCount: int := 30

  /** Values substituted for a falsy input when the configuration is built. */
  const BatchSizeFallback: int := 2
  const MaxTransactionCountFallback: int := 3
  const MaxFailureCountFallback: int := 1

  /** `v || fallback`: the value itself when truthy, the fallback number otherwise. */
  function Or(v: Field, fallback: int): (r: Field)
    requires fallback != 0
    ensures Truthy(r)
    ensures r == v || (!Truthy(v) && r == Num(fallback))
  {
    if Truthy(v) then v else Num(fallback)
  }

  /** The object posted to `/set-config`. */
  datatype Config = Config(batchSize: Field, maxTransactionCount: Field, maxFailureCount: Field)

  predicate AllTruthy(c: Config) {
    Truthy(c.batchSize) && Truthy(c.maxTransactionCount) && Truthy(c.maxFailureCount)
  }

  /** The configuration built from the current input values. Every field that is
      sent is truthy; a truthy input is sent unchanged, whatever its size, and only
      a falsy one is replaced by its fallback 2, 3 or 1. */
  function BuildConfig(batchSize: Field, maxTransactionCount: Field, maxFailureCount: Field): (c: Config)
    ensures AllTruthy(c)
    ensures Truthy(batchSize) ==> c.batchSize == batchSize
    ensures !Truthy(batchSize) ==> c.batchSize == Num(BatchSizeFallback)
    ensures Truthy(maxTransactionCount) ==> c.maxTransactionCount == maxTransactionCount
    ensures !Truthy(maxTransactionCount) ==> c.maxTransactionCount == Num(MaxTransactionCountFallback)
    ensures Truthy(maxFailureCount) ==> c.maxFailureCount == maxFailureCount
    ensures !Truthy(maxFailureCount) ==> c.maxFailureCount == Num(MaxFailureCountFallback)
  {
    Config(Or(batchSize, BatchSizeFallback),
           Or(maxTransactionCount, MaxTransactionCountFallback),
           Or(maxFailureCount, MaxFailureCountFallback))
  }

  /** Building a configuration from a configuration that was already built changes
      nothing: the substitution is idempotent, and a config with no falsy field is a
      fixed point of it. */
  lemma BuildConfigFixedPoint(c: Config)
    ensures AllTruthy(c) <==> BuildConfig(c.batchSize, c.maxTransactionCount, c.maxFailureCount) == c
  {
  }

  /** The fallbacks are substitutions, not lower bounds: a truthy input below its
      fallback, such as batch size 1, or the text "0" typed into a field, is sent as is. */
  lemma FallbackIsNotAFloor()
    ensures BuildConfig(Num(1), Num(2), Num(1)) == Config(Num(1), Num(2), Num(1))
    ensures BuildConfig(Text("0"), Text("1"), Text("0")) == Config(Text("0"), Text("1"), Text("0"))
  {
  }

  /** Cleared inputs (empty text) and the number 0 are both replaced: the run is
      configured with batch size 2, 3 transactions and 1 allowed failure. */
  lemma FalsyInputsUseFallbacks()
    ensures BuildConfig(Text(""), Text(""), Text("")) == Config(Num(2), Num(3), Num(1))
    ensures BuildConfig(Num(0), Num(0), Num(0)) == Config(Num(2), Num(3), Num(1))
    ensures BuildConfig(Num(0), Num(InitialMaxTransactionCount), Num(InitialMaxFailureCount))
         == Config(Num(2), Num(100), Num(30))
  {
  }
}
