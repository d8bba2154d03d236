/**
 * The favourite-symbols list of the market tables: toggling a symbol,
 * membership, the "favourites only" view and the rule that writes the list
 * to browser storage.
 */
module Favourites {
  import opened MarketView

  /** The list without any copy of `symbol`, others in their order (`favs.filter(s => s !== symbol)`). */
  function Without(favs: seq<string>, symbol: string): (r: seq<string>)
    ensures symbol !in r
    ensures forall s :: s != symbol ==> (s in r <==> s in favs)
    ensures symbol !in favs ==> r == favs
    ensures |r| <= |favs|
  {
    if |favs| == 0 then []
    else (if favs[0] == symbol then [] else [favs[0]]) + Without(favs[1..], symbol)
  }

  /** `favs.includes(symbol)`. */
  predicate IsFavourite(favs: seq<string>, symbol: string)
  {
    symbol in favs
  }

  /** Removes every copy of `symbol` when it is a favourite, otherwise appends it. */
  function Toggle(favs: seq<string>, symbol: string): seq<string>
  {
    if symbol in favs then Without(favs, symbol) else favs + [symbol]
  }

  /** Toggling flips whether `symbol` is a favourite and leaves every other symbol as it was. */
  lemma ToggleSpec(favs: seq<string>, symbol: string)
    ensures IsFavourite(Toggle(favs, symbol), symbol) <==> !IsFavourite(favs, symbol)
    ensures forall s :: s != symbol ==> (IsFavourite(Toggle(favs, symbol), s) <==> IsFavourite(favs, s))
  {
  }

  predicate NoDuplicates(favs: seq<string>)
  {
    forall i, j :: 0 <= i < j < |favs| ==> favs[i] != favs[j]
  }

  lemma {:induction false} WithoutKeepsNoDuplicates(favs: seq<string>, symbol: string)
    requires NoDuplicates(favs)
    ensures NoDuplicates(Without(favs, symbol))
  {
    if |favs| > 0 {
      var tail := favs[1..];
      assert NoDuplicates(tail) by {
        forall i, j | 0 <= i < j < |tail| ensures tail[i] != tail[j] {
          assert tail[i] == favs[i + 1] && tail[j] == favs[j + 1];
        }
      }
      WithoutKeepsNoDuplicates(tail, symbol);
      var rest := Without(tail, symbol);
      assert favs[0] !in tail by {
        forall k | 0 <= k < |tail| ensures tail[k] != favs[0] {
          assert tail[k] == favs[k + 1];
        }
      }
      assert favs[0] !in rest;
      var r := Without(favs, symbol);
      if favs[0] != symbol {
        assert r == [favs[0]] + rest;
        forall i, j | 0 <= i < j < |r| ensures r[i] != r[j] {
          if i == 0 {
            assert r[j] == rest[j - 1];
            assert r[j] in rest;
          } else {
            assert r[i] == rest[i - 1] && r[j] == rest[j - 1];
          }
        }
      }
    }
  }

  /** A list without repeated symbols keeps that property under toggling. */
  lemma ToggleKeepsNoDuplicates(favs: seq<string>, symbol: string)
    requires NoDuplicates(favs)
    ensures NoDuplicates(Toggle(favs, symbol))
  {
    if symbol in favs {
      WithoutKeepsNoDuplicates(favs, symbol);
    } else {
      var r := favs + [symbol];
      forall i, j | 0 <= i < j < |r| ensures r[i] != r[j] {
        if j == |favs| {
          assert r[i] == favs[i];
        } else {
          assert r[i] == favs[i] && r[j] == favs[j];
        }
      }
    }
  }

  lemma {:induction false} WithoutAppended(favs: seq<string>, symbol: string)
    requires symbol !in favs
    ensures Without(favs + [symbol], symbol) == favs
  {
    if |favs| == 0 {
      assert Without([symbol], symbol) == [] + Without([], symbol);
    } else {
      WithoutAppended(favs[1..], symbol);
      assert (favs + [symbol])[1..] == favs[1..] + [symbol];
      assert favs == [favs[0]] + favs[1..];
    }
  }

  /** Toggling a symbol that is not a favourite twice gives back the list exactly. */
  lemma ToggleTwiceRestoresAbsent(favs: seq<string>, symbol: string)
    requires !IsFavourite(favs, symbol)
    ensures Toggle(Toggle(favs, symbol), symbol) == favs
  {
    WithoutAppended(favs, symbol);
  }

  /**
   * Toggling a favourite twice restores membership, but the symbol now sits
   * at the end of the list.
   */
  lemma ToggleTwiceMovesToEnd(favs: seq<string>, symbol: string)
    requires IsFavourite(favs, symbol)
    ensures Toggle(Toggle(favs, symbol), symbol) == Without(favs, symbol) + [symbol]
    ensures forall s :: IsFavourite(Toggle(Toggle(favs, symbol), symbol), s) <==> IsFavourite(favs, s)
  {
  }

  /** The rows shown with "favourites only" switched on, in table order. */
  function FavouritesOnly(rows: seq<MarketRow>, favs: seq<string>): (r: seq<MarketRow>)
    ensures forall x :: x in r <==> x in rows && IsFavourite(favs, x.symbol)
    ensures |r| <= |rows|
  {
    if |rows| == 0 then []
    else
      assert rows == [rows[0]] + rows[1..];
      (if IsFavourite(favs, rows[0].symbol) then [rows[0]] else []) + FavouritesOnly(rows[1..], favs)
  }

  /**
   * The filter keeps table order: filtering two stretches of rows one after
   * the other gives the filtered stretches one after the other.
   */
  lemma {:induction false} FavouritesOnlyAppend(a: seq<MarketRow>, b: seq<MarketRow>, favs: seq<string>)
    ensures FavouritesOnly(a + b, favs) == FavouritesOnly(a, favs) + FavouritesOnly(b, favs)
    decreases |a|
  {
    if |a| == 0 {
      assert a + b == b;
    } else {
      assert (a + b)[0] == a[0] && (a + b)[1..] == a[1..] + b;
      FavouritesOnlyAppend(a[1..], b, favs);
    }
  }

  /** With every row a favourite, the filter shows all of them unchanged. */
  lemma {:induction false} FavouritesOnlyAll(rows: seq<MarketRow>, favs: seq<string>)
    requires forall i :: 0 <= i < |rows| ==> IsFavourite(favs, rows[i].symbol)
    ensures FavouritesOnly(rows, favs) == rows
    decreases |rows|
  {
    if |rows| > 0 {
      FavouritesOnlyAll(rows[1..], favs);
    }
  }

  /** What the table renders: all rows, or only the favourites. */
  function Visible(rows: seq<MarketRow>, favs: seq<string>, favouritesOnly: bool): (r: seq<MarketRow>)
    ensures !favouritesOnly ==> r == rows
    ensures forall x :: x in r <==> x in rows && (favouritesOnly ==> IsFavourite(favs, x.symbol))
  {
    if favouritesOnly then FavouritesOnly(rows, favs) else rows
  }

  /** The browser storage the list is written to: key -> stored list. */
  type Storage = map<string, seq<string>>

  const StorageKey := "favourites"

  /** After the list changes, an empty list removes the key and any other list is stored under it. */
  function Persist(storage: Storage, favs: seq<string>): Storage
  {
    if |favs| == 0 then storage - {StorageKey} else storage[StorageKey := favs]
  }

  /** The key is present exactly for a non-empty list and then holds it; every other key is left alone. */
  lemma PersistSpec(storage: Storage, favs: seq<string>)
    ensures var r := Persist(storage, favs);
      && (StorageKey in r <==> |favs| > 0)
      && (StorageKey in r ==> r[StorageKey] == favs)
      && (forall k :: k != StorageKey ==> (k in r <==> k in storage) && (k in r ==> r[k] == storage[k]))
  {
  }

  /** Writing the list under the key first changes nothing the persistence rule then leaves behind. */
  lemma PersistAfterWrite(storage: Storage, favs: seq<string>)
    ensures Persist(storage[StorageKey := favs], favs) == Persist(storage, favs)
  {
    if |favs| == 0 {
      assert storage[StorageKey := favs] - {StorageKey} == storage - {StorageKey};
    }
  }

  /** Reading back what was persisted gives the list; no stored key means no favourites. */
  lemma PersistLoadRoundTrip(storage: Storage, favs: seq<string>)
    ensures var s := Persist(storage, favs);
      (if StorageKey in s then s[StorageKey] else []) == favs
  {
  }
}
