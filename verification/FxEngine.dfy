/** One FX engine without a database: the rate book, the quotes and the conversions it keeps in memory
    (cmd/fx-service/engine.go:404-522, 545-727). Each method runs under the engine's lock where it writes. */
module FxEngine {
  import opened Hashing
  import opened Currency
  import opened FxRates
  import opened FxQuotes

  datatype ConversionDoc = ConversionDoc(quoteId: string, terms: Terms)

  datatype Reply = Completed(doc: ConversionDoc) | Replayed(doc: ConversionDoc) | Refused

  const DEFAULT_TTL := 60
  const MAX_TTL := 3600
  const SECOND := 1_000_000_000

  function Ttl(seconds: int): int {
    if seconds <= 0 then DEFAULT_TTL else if seconds > MAX_TTL then MAX_TTL else seconds
  }

  /** What a quote promises. */
  function TermsOf(q: Quoted, base: string, target: string, expiresAt: int): Terms {
    Terms(Normalize(base), Normalize(target), q.sourceAmount, q.targetAmount, q.feeAmount, expiresAt)
  }

  predicate Usable(doc: QuoteDoc, base: string, target: string, amount: int, now: int) {
    && doc.status == Active && now <= doc.terms.expiresAt
    && (base != "" ==> Normalize(base) == doc.terms.base) && (target != "" ==> Normalize(target) == doc.terms.target)
    && (amount > 0 ==> amount == doc.terms.sourceAmount)
  }

  class Engine {
    var book: Book
    var quotes: map<string, QuoteDoc>
    var conversions: map<string, ConversionDoc>

    /** Every conversion used up its own quote, at the quoted terms. */
    ghost predicate Valid()
      reads this
    {
      && FxRates.Sound(book)
      && (forall k :: k in conversions ==>
            && conversions[k].quoteId in quotes && quotes[conversions[k].quoteId].status != Active
            && quotes[conversions[k].quoteId].terms == conversions[k].terms)
      && (forall k, l :: k in conversions && l in conversions && k != l ==>
          conversions[k].quoteId != conversions[l].quoteId)
    }

    constructor (baseline: map<string, real>, spreadBps: int, feeBps: int)
      ensures Valid() && quotes == map[] && conversions == map[]
    {
      book := NewBook(baseline, spreadBps, feeBps);
      quotes, conversions := map[], map[];
    }

    /** Quote ids are new each time. */
    method CreateQuote(base: string, target: string, amount: int, ttlSeconds: int, now: int, newId: string)
      returns (r: Option<QuoteDoc>)
      requires Valid() && newId !in quotes
      modifies this`quotes
      ensures Valid()
      ensures match FxRates.CreateQuote(book, base, target, amount)
              case None => r.None? && quotes == old(quotes)
              case Some(q) =>
                && r == Some(QuoteDoc(TermsOf(q, base, target, now + Ttl(ttlSeconds) * SECOND), Active))
                && quotes == old(quotes)[newId := r.value]
      ensures r.Some? ==>
                var life := r.value.terms.expiresAt - now;
                && (1 <= ttlSeconds <= 3600 ==> life == ttlSeconds * 1_000_000_000)
                && (ttlSeconds <= 0 ==> life == 60 * 1_000_000_000)
                && (ttlSeconds > 3600 ==> life == 3600 * 1_000_000_000)
    {
      hide FxRates.CreateQuote, FxRates.Sound, Normalize;
      var q := FxRates.CreateQuote(book, base, target, amount);
      if q.None? {
        return None;
      }
      var seconds := ttlSeconds;
      if seconds <= 0 {
        seconds := DEFAULT_TTL;
      }
      if seconds > MAX_TTL {
        seconds := MAX_TTL;
      }
      var doc := QuoteDoc(TermsOf(q.value, base, target, now + seconds * SECOND), Active);
      quotes := quotes[newId := doc];
      return Some(doc);
    }

    method GetQuote(quoteId: string, now: int) returns (r: Option<QuoteDoc>)
      requires Valid()
      modifies this`quotes
      ensures Valid() && quotes.Keys == old(quotes).Keys
      ensures r.Some? <==> Trim(quoteId) != "" && Trim(quoteId) in old(quotes)
      ensures r.Some? ==>
                quotes == old(quotes)[Trim(quoteId) := r.value] && r.value.terms == old(quotes)[Trim(quoteId)].terms
      ensures r.Some? ==> (r.value.status == Active ==> now <= r.value.terms.expiresAt)
                          && (r.value.status != old(quotes)[Trim(quoteId)].status ==> r.value.status == Expired)
    {
      var id := Trim(quoteId);
      if id == "" || id !in quotes {
        return None;
      }
      var doc := quotes[id];
      if doc.status == Active && now > doc.terms.expiresAt {
        doc := doc.(status := Expired);
        quotes := quotes[id := doc];
      }
      return Some(doc);
    }

    /** A known key is answered with its own conversion and changes nothing. Otherwise a completed conversion used a
        quote that no conversion had used, at its terms; with a quote id it completes exactly for a usable quote. */
    method ConvertCurrency(key: string, quoteId: string, base: string, target: string, amount: int, now: int,
                           newId: string)
      returns (r: Reply)
      requires Valid() && newId !in quotes
      modifies this`quotes, this`conversions
      ensures Valid()
      ensures r.Replayed? <==> Trim(key) != "" && Trim(key) in old(conversions)
      ensures r.Replayed? ==> r.doc == old(conversions)[Trim(key)]
      ensures !r.Completed? ==> quotes == old(quotes) && conversions == old(conversions)
      ensures r.Completed? ==>
                && Trim(key) != "" && conversions == old(conversions)[Trim(key) := r.doc]
                && (forall k :: k in old(conversions) ==> old(conversions)[k].quoteId != r.doc.quoteId)
                && r.doc.quoteId in quotes && quotes[r.doc.quoteId] == QuoteDoc(r.doc.terms, Executed)
      ensures Trim(key) != "" && Trim(key) !in old(conversions) && Trim(quoteId) != "" ==>
                (r.Completed? <==>
                    && Trim(quoteId) in old(quotes)
                    && var doc := old(quotes)[Trim(quoteId)];
                       && doc.status == Active && now <= doc.terms.expiresAt
                       && (base == "" || Normalize(base) == doc.terms.base)
                       && (target == "" || Normalize(target) == doc.terms.target)
                       && (amount <= 0 || amount == doc.terms.sourceAmount))
      ensures r.Completed? && Trim(quoteId) != "" ==>
                Trim(quoteId) in old(quotes) && r.doc == ConversionDoc(Trim(quoteId), old(quotes)[Trim(quoteId)].terms)
      ensures Trim(key) != "" && Trim(key) !in old(conversions) && Trim(quoteId) == "" ==>
                match FxRates.CreateQuote(book, base, target, amount)
                case None => r.Refused?
                case Some(q) =>
                  r == Completed(ConversionDoc(newId, TermsOf(q, base, target, now + DEFAULT_TTL * SECOND)))
    {
      hide FxRates.CreateQuote, FxRates.Sound, Normalize, Trim, TermsOf;
      var k, id := Trim(key), Trim(quoteId);
      if k == "" {
        return Refused;
      }
      if k in conversions {
        return Replayed(conversions[k]);
      }
      if id != "" {
        if id !in quotes || !Usable(quotes[id], base, target, amount, now) {
          return Refused;
        }
      } else {
        var quote := CreateQuote(base, target, amount, DEFAULT_TTL, now, newId);
        if quote.None? {
          return Refused;
        }
        id := newId;
      }
      var doc := ConversionDoc(id, quotes[id].terms);
      quotes := quotes[id := quotes[id].(status := Executed)];
      conversions := conversions[k := doc];
      return Completed(doc);
    }
  }
}
