/**
 * Centralized exchanges by country (src/hooks/useCentralizedExchanges.ts):
 * the sorted country options, the country selection, and the shuffled list of
 * exchange cards for the selected country, with a caveat listing excluded
 * states for the United States.
 *
 * The exchange table and the country table are parameters (their contents
 * are site data), as are the translation function, the locale's list
 * formatter, the collation order and the shuffle's random draws.
 */
module Exchanges {
  import opened Wrappers
  import Sorting
  import Shuffle

  /** One row of the exchange table: its key and the fields the hook reads. */
  datatype Exchange = Exchange(key: string, name: string, url: string, image: string, usaExceptions: seq<string>)

  /** An option of the country selector. */
  datatype CountryOption = CountryOption(value: string, displayLabel: string, exchanges: seq<string>)

  /** A card of the exchange list. */
  datatype Card = Card(title: string, description: Option<string>, link: string, image: string, alt: string)

  const UnitedStates: string := "United States of America (USA)"
  const ExceptKey: string := "page-get-eth-exchanges-except"

  /** The exchange table is a record: no key appears twice. */
  predicate DistinctKeys(table: seq<Exchange>) {
    forall i, j :: 0 <= i < j < |table| ==> table[i].key != table[j].key
  }

  function ToOption(country: (string, seq<string>)): CountryOption {
    CountryOption(country.0, country.0, country.1)
  }

  function ValueOf(o: CountryOption): string {
    o.value
  }

  function MapToOptions(data: seq<(string, seq<string>)>): (r: seq<CountryOption>)
    ensures |r| == |data|
    ensures forall i :: 0 <= i < |r| ==> r[i] == ToOption(data[i])
  {
    seq(|data|, i requires 0 <= i < |data| => ToOption(data[i]))
  }

  /**
   * `selectOptions`: one option per country of the table, with the country as
   * value and label and its exchange keys, sorted by value under `le`.
   */
  function SelectOptions(data: seq<(string, seq<string>)>, le: (string, string) -> bool): (r: seq<CountryOption>)
    requires Sorting.TotalPreorder(le)
    ensures |r| == |data|
    ensures Sorting.SortedBy(r, ValueOf, le)
    ensures multiset(r) == multiset(MapToOptions(data))
    ensures forall o :: o in r ==> o.displayLabel == o.value && (o.value, o.exchanges) in data
    ensures forall c :: c in data ==> CountryOption(c.0, c.0, c.1) in r
  {
    var options := MapToOptions(data);
    var r := Sorting.SortBy(options, ValueOf, le);
    assert forall o :: o in r ==> o in multiset(options);
    assert forall i :: 0 <= i < |data| ==> options[i] in multiset(r);
    r
  }

  /** `handleSelectChange`: the chosen option becomes the selected country (the analytics event is not modelled). */
  function HandleSelectChange(selected: Option<CountryOption>, chosen: CountryOption): (r: Option<CountryOption>)
    ensures r == Some(chosen)
    ensures HasSelectedCountry(r) <==> chosen.value != ""
  {
    Some(chosen)
  }

  /** `hasSelectedCountry`: a selection with a non-empty value. */
  predicate HasSelectedCountry(selected: Option<CountryOption>) {
    selected.Some? && selected.value.value != ""
  }

  /** The table rows whose key is in the country's list, in table order. */
  function ServingExchanges(table: seq<Exchange>, countryKeys: seq<string>): (r: seq<Exchange>)
    ensures |r| <= |table|
    ensures forall e :: e in r <==> e in table && e.key in countryKeys
    decreases |table|
  {
    if |table| == 0 then []
    else if table[0].key in countryKeys then [table[0]] + ServingExchanges(table[1..], countryKeys)
    else ServingExchanges(table[1..], countryKeys)
  }

  /** The filter keeps table order: filtering a concatenation concatenates the filtered parts. */
  lemma {:induction false} ServingExchangesAppend(a: seq<Exchange>, b: seq<Exchange>, countryKeys: seq<string>)
    ensures ServingExchanges(a + b, countryKeys) == ServingExchanges(a, countryKeys) + ServingExchanges(b, countryKeys)
    decreases |a|
  {
    if |a| == 0 {
      assert a + b == b;
    } else {
      assert (a + b)[0] == a[0];
      assert (a + b)[1..] == a[1..] + b;
      ServingExchangesAppend(a[1..], b, countryKeys);
    }
  }

  /** A filter of a table with distinct keys has distinct keys: each exchange appears at most once. */
  lemma {:induction false} ServingExchangesDistinct(table: seq<Exchange>, countryKeys: seq<string>)
    requires DistinctKeys(table)
    ensures DistinctKeys(ServingExchanges(table, countryKeys))
    decreases |table|
  {
    if |table| > 0 {
      ServingExchangesDistinct(table[1..], countryKeys);
      var rest := ServingExchanges(table[1..], countryKeys);
      assert forall e :: e in rest ==> e.key != table[0].key by {
        forall e | e in rest ensures e.key != table[0].key {
          var j :| 0 <= j < |table[1..]| && table[1..][j] == e;
          assert table[j + 1] == e;
        }
      }
    }
  }

  /** The card for one exchange; the United States caveat lists its excluded states. */
  function ToCard(e: Exchange, country: string, t: string -> string, formatList: seq<string> -> string): (c: Card)
    ensures c.title == e.name && c.link == e.url && c.image == e.image && c.alt == ""
    ensures c.description.Some? <==> country == UnitedStates && |e.usaExceptions| > 0
    ensures c.description.Some? ==> c.description.value == t(ExceptKey) + " " + formatList(e.usaExceptions)
  {
    var description :=
      if country == UnitedStates && |e.usaExceptions| > 0
      then Some(t(ExceptKey) + " " + formatList(e.usaExceptions))
      else None;
    Card(e.name, description, e.url, e.image, "")
  }

  function ToCards(es: seq<Exchange>, country: string, t: string -> string,
                   formatList: seq<string> -> string): (r: seq<Card>)
    ensures |r| == |es|
    ensures forall i :: 0 <= i < |r| ==> r[i] == ToCard(es[i], country, t, formatList)
  {
    seq(|es|, i requires 0 <= i < |es| => ToCard(es[i], country, t, formatList))
  }

  /** The cards before shuffling: one per serving exchange, in table order; none without a selection. */
  function CardsInTableOrder(selected: Option<CountryOption>, table: seq<Exchange>, t: string -> string,
                             formatList: seq<string> -> string): seq<Card>
  {
    if HasSelectedCountry(selected) then
      ToCards(ServingExchanges(table, selected.value.exchanges), selected.value.value, t, formatList)
    else []
  }

  /**
   * `filteredExchanges`: empty without a selected country, otherwise the
   * cards of the exchanges serving it, shuffled with the given draws.
   */
  function FilteredExchanges(selected: Option<CountryOption>, table: seq<Exchange>, t: string -> string,
                             formatList: seq<string> -> string, draws: seq<nat>): (r: seq<Card>)
    ensures !HasSelectedCountry(selected) ==> r == []
    ensures multiset(r) == multiset(CardsInTableOrder(selected, table, t, formatList))
    ensures HasSelectedCountry(selected) ==>
              |r| == |ServingExchanges(table, selected.value.exchanges)|
  {
    if HasSelectedCountry(selected) then
      Shuffle.Shuffle(CardsInTableOrder(selected, table, t, formatList), draws)
    else []
  }

  /** `hasExchangeResults`. */
  predicate HasExchangeResults(filtered: seq<Card>) {
    |filtered| > 0
  }

  /**
   * Every shown card is the card of a table exchange that serves the selected
   * country, and every such exchange has its card shown, whatever the draws.
   */
  lemma FilteredCardsAreServingExchanges(selected: Option<CountryOption>, table: seq<Exchange>,
                                         t: string -> string, formatList: seq<string> -> string, draws: seq<nat>)
    requires HasSelectedCountry(selected)
    ensures var r := FilteredExchanges(selected, table, t, formatList, draws);
            forall c :: c in r <==>
              exists e :: e in table && e.key in selected.value.exchanges
                       && c == ToCard(e, selected.value.value, t, formatList)
  {
    var country := selected.value;
    var serving := ServingExchanges(table, country.exchanges);
    var cards := CardsInTableOrder(selected, table, t, formatList);
    var r := FilteredExchanges(selected, table, t, formatList, draws);
    forall c ensures c in r <==> c in cards {
      assert c in r <==> c in multiset(r);
    }
    forall c | c in cards
      ensures exists e :: e in table && e.key in country.exchanges && c == ToCard(e, country.value, t, formatList)
    {
      var i :| 0 <= i < |cards| && cards[i] == c;
      assert serving[i] in serving;
    }
    forall e | e in table && e.key in country.exchanges
      ensures ToCard(e, country.value, t, formatList) in cards
    {
      var i :| 0 <= i < |serving| && serving[i] == e;
      assert cards[i] == ToCard(e, country.value, t, formatList);
    }
  }

  /** There are results exactly when some table exchange serves the selected country. */
  lemma HasResultsIffServed(selected: Option<CountryOption>, table: seq<Exchange>,
                            t: string -> string, formatList: seq<string> -> string, draws: seq<nat>)
    ensures HasExchangeResults(FilteredExchanges(selected, table, t, formatList, draws)) <==>
              HasSelectedCountry(selected) && exists e :: e in table && e.key in selected.value.exchanges
  {
    if HasSelectedCountry(selected) {
      var serving := ServingExchanges(table, selected.value.exchanges);
      if |serving| > 0 {
        assert serving[0] in serving;
      }
    }
  }

  /** Outside the United States no card carries a caveat, whatever the exchanges' exceptions. */
  lemma NoCaveatOutsideUnitedStates(selected: Option<CountryOption>, table: seq<Exchange>,
                                    t: string -> string, formatList: seq<string> -> string, draws: seq<nat>)
    requires selected.Some? && selected.value.value != UnitedStates
    ensures forall c :: c in FilteredExchanges(selected, table, t, formatList, draws) ==> c.description.None?
  {
    if HasSelectedCountry(selected) {
      FilteredCardsAreServingExchanges(selected, table, t, formatList, draws);
    }
  }
}
