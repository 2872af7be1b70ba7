/**
 * The CoinGecko service: Bitcoin and Ethereum prices in Canadian dollars
 * with their 24-hour change, two sample entries when anything fails, and the
 * signed percentage text of a change.
 */
module CryptoService {

  import Text

  /** The `cad` price and `cad_24h_change` of one coin. */
  datatype Quote = Quote(cad: real, cad24hChange: real)

  datatype CryptoData = CryptoData(symbol: string, name: string, price: real, change24h: real, isUp: bool)

  /**
   * The price request: any failure on the way (HTTP error, network, body), or
   * the coins of the answer by id; a coin the answer lacks is absent.
   */
  datatype Fetched = Failed | Fetched(data: map<string, Quote>)

  /** `getMockCryptoData`. */
  const MockCryptoData := [
    CryptoData("BTC", "Bitcoin", 58750.67, 2.34, true),
    CryptoData("ETH", "Ethereum", 2856.89, -1.23, false)]

  /** The entry of one coin; it is up exactly when its change is strictly positive. */
  function Entry(symbol: string, name: string, q: Quote): (r: CryptoData)
    ensures r.isUp <==> r.change24h > 0.0
    ensures r.symbol == symbol && r.name == name && r.price == q.cad && r.change24h == q.cad24hChange
  {
    CryptoData(symbol, name, q.cad, q.cad24hChange, q.cad24hChange > 0.0)
  }

  /** `getCryptoPrices`: BTC then ETH, each pushed when the answer has it. */
  method GetCryptoPrices(response: Fetched) returns (cryptos: seq<CryptoData>)
    ensures response.Failed? ==> cryptos == MockCryptoData
    ensures response.Fetched? ==>
              |cryptos| == (if "bitcoin" in response.data then 1 else 0) + (if "ethereum" in response.data then 1 else 0)
    ensures response.Fetched? && "bitcoin" in response.data ==>
              cryptos[0] == Entry("BTC", "Bitcoin", response.data["bitcoin"])
    ensures response.Fetched? && "ethereum" in response.data ==>
              cryptos[|cryptos| - 1] == Entry("ETH", "Ethereum", response.data["ethereum"])
    ensures forall i :: 0 <= i < |cryptos| ==> (cryptos[i].isUp <==> cryptos[i].change24h > 0.0)
  {
    if response.Failed? {
      return MockCryptoData;
    }
    var data := response.data;
    cryptos := [];
    if "bitcoin" in data {
      cryptos := cryptos + [Entry("BTC", "Bitcoin", data["bitcoin"])];
    }
    if "ethereum" in data {
      cryptos := cryptos + [Entry("ETH", "Ethereum", data["ethereum"])];
    }
  }

  // ------------------------------------------------------------ the change

  /** `Math.round`-style rounding of a non-negative amount: halves go up. */
  function RoundHalfUp(x: real): (n: nat)
    requires x >= 0.0
    ensures x - 0.5 < n as real <= x + 0.5
  {
    (x + 0.5).Floor
  }

  /** Two digits, with a leading zero below ten. */
  function TwoDigits(n: nat): (r: string)
    requires n < 100
    ensures |r| == 2 && Text.AllDigits(r)
    ensures Text.DigitsValue(r) == n
  {
    var r := [Text.DigitChar(n / 10), Text.DigitChar(n % 10)];
    assert r[..1] == [Text.DigitChar(n / 10)] && r[..1][..0] == [];
    assert Text.DigitsValue(r[..1]) == n / 10;
    r
  }

  /**
   * `x.toFixed(2)` for an amount below 10^21: a minus sign for a negative
   * amount, then the magnitude rounded to the nearest hundredth (halves up)
   * with two decimals.
   */
  function ToFixed2(x: real): (r: string)
    ensures x < 0.0 <==> (r != [] && r[0] == '-')
    ensures |r| >= 4 && r[|r| - 3] == '.' && Text.IsDigit(r[|r| - 2]) && Text.IsDigit(r[|r| - 1])
    ensures r[0] != '+'
  {
    var magnitude := if x < 0.0 then -x else x;
    var n := RoundHalfUp(magnitude * 100.0);
    var digits := Text.NatToString(n / 100) + "." + TwoDigits(n % 100);
    assert Text.IsDigit(digits[0]);
    if x < 0.0 then "-" + digits else digits
  }

  /** `formatChange`: a plus sign for a strictly positive change, then `toFixed(2)` and `%`. */
  function FormatChange(change: real): (r: string)
    ensures |r| >= 5 && r[|r| - 1] == '%'
    ensures r[0] == '+' <==> change > 0.0
    ensures r[0] == '-' <==> change < 0.0
  {
    (if change > 0.0 then "+" else "") + ToFixed2(change) + "%"
  }

  /** A zero change has no sign, and a tiny negative change keeps its minus sign. */
  lemma SignOfSmallChanges()
    ensures FormatChange(0.0) == "0.00%"
    ensures FormatChange(-0.001) == "-0.00%"
  {
    assert Text.NatToString(0) == "0";
    assert TwoDigits(0) == "00";
  }

  /** The sample entries are up exactly when their change is positive. */
  lemma MockIsConsistent()
    ensures forall i :: 0 <= i < |MockCryptoData| ==> (MockCryptoData[i].isUp <==> MockCryptoData[i].change24h > 0.0)
    ensures MockCryptoData[0].symbol == "BTC" && MockCryptoData[1].symbol == "ETH"
  {
  }
}
