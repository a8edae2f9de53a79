/**
 * The closed enumeration of trading venues (constants.Exchange). Each constant
 * carries a display string fixed when the constant is constructed; toString
 * returns it.
 */
module Exchanges {

  datatype Exchange = CoinbasePro | Kraken | Bitfinex | Gemini

  /** Every venue there is. */
  const ALL_EXCHANGES: set<Exchange> := {CoinbasePro, Kraken, Bitfinex, Gemini}

  /** The display string of a venue: the constructor argument of its constant. */
  function ToString(e: Exchange): (s: string)
    ensures |s| > 0
  {
    match e
    case CoinbasePro => "CoinbasePro"
    case Kraken => "Kraken"
    case Bitfinex => "Bitfinex"
    case Gemini => "Gemini"
  }

  /** The enumeration has exactly four constants and every venue is one of them. */
  lemma ExactlyFourExchanges()
    ensures forall e: Exchange :: e in ALL_EXCHANGES
    ensures |ALL_EXCHANGES| == 4
  {
    forall e: Exchange
      ensures e in ALL_EXCHANGES
    {
      match e
      case CoinbasePro =>
      case Kraken =>
      case Bitfinex =>
      case Gemini =>
    }
    assert ALL_EXCHANGES == {CoinbasePro} + {Kraken} + {Bitfinex} + {Gemini};
    assert |{CoinbasePro} + {Kraken}| == 2;
    assert |{CoinbasePro} + {Kraken} + {Bitfinex}| == 3;
  }

  /** The display strings are those given to the constants' constructors. */
  lemma DisplayNames()
    ensures ToString(CoinbasePro) == "CoinbasePro"
    ensures ToString(Kraken) == "Kraken"
    ensures ToString(Bitfinex) == "Bitfinex"
    ensures ToString(Gemini) == "Gemini"
  {
  }

  /** No two venues share a display string, so a display string names one venue. */
  lemma ToStringInjective(a: Exchange, b: Exchange)
    requires ToString(a) == ToString(b)
    ensures a == b
  {
  }
}
