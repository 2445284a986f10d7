/** The `Perfumes` screen as a view-model: one field per `useState` slot,
    one method per event handler, and the `"favorites"` entry of the
    device's key-value store as an object the screen is given. */
module Screen {
  import opened Catalog
  import Decimal

  datatype Option<T> = None | Some(value: T)

  const AllTitle: string := "All Perfumes"

  function CompanyTitle(c: string): string {
    "Perfumes of " + c
  }

  /** The company title names the company: it can be read back, so two
      companies never share a title. */
  lemma CompanyTitleNamesCompany(c: string, d: string)
    ensures CompanyTitle(c)[12..] == c
    ensures CompanyTitle(c) == CompanyTitle(d) ==> c == d
  {
    assert CompanyTitle(c)[12..] == c;
    assert CompanyTitle(d)[12..] == d;
  }

  /** The title set by `filterByPrice`; a lower bound of exactly 200
      selects the label of the "over $200" range. */
  function PriceTitle(min: int, max: int): (t: string)
    ensures t == "Perfumes over $200" <==> min == 200
    ensures min != 200 ==> |t| > 19 && t[..19] == "Perfumes in price $"
  {
    if min == 200 then "Perfumes over $200"
    else "Perfumes in price $" + Decimal.Show(min) + " and $" + Decimal.Show(max)
  }

  /** Apart from the "over $200" case, the title shows both bounds, and
      each can be read back from it. */
  lemma PriceTitleShowsRange(min: int, max: int)
    requires min != 200
    ensures var t, lo, hi := PriceTitle(min, max), Decimal.Show(min), Decimal.Show(max);
      |t| == 19 + |lo| + 6 + |hi| &&
      t[..19] == "Perfumes in price $" &&
      Decimal.Parse(t[19..19 + |lo|]) == min &&
      t[19 + |lo|..25 + |lo|] == " and $" &&
      Decimal.Parse(t[25 + |lo|..]) == max
  {
    var t, lo, hi := PriceTitle(min, max), Decimal.Show(min), Decimal.Show(max);
    assert t[19..19 + |lo|] == lo;
    assert t[25 + |lo|..] == hi;
    Decimal.ShowRoundTrip(min);
    Decimal.ShowRoundTrip(max);
  }

  /** The favorites a stored entry holds; an absent entry holds none. */
  function StoredOrEmpty(value: Option<seq<Product>>): seq<Product> {
    if value.Some? then value.value else []
  }

  /** The `"favorites"` entry of the key-value store, read and written as
      a whole list. */
  class FavoriteStore {
    var item: Option<seq<Product>>

    constructor ()
      ensures item == None
    {
      item := None;
    }

    method GetItem() returns (value: Option<seq<Product>>)
      ensures value == item
    {
      value := item;
    }

    method SetItem(value: seq<Product>)
      modifies this
      ensures item == Some(value)
    {
      item := Some(value);
    }
  }

  /** All of the screen's state slots at once. */
  datatype ViewState = ViewState(
    perfumes: seq<Product>,
    perfumesDisplay: seq<Product>,
    favorites: seq<Product>,
    company: seq<string>,
    modalVisible: bool,
    showCompanyList: bool,
    showPriceList: bool,
    titleName: string,
    searchText: string)

  class Perfumes {
    const store: FavoriteStore

    var perfumes: seq<Product>
    var perfumesDisplay: seq<Product>
    var favorites: seq<Product>
    var company: seq<string>
    var modalVisible: bool
    var showCompanyList: bool
    var showPriceList: bool
    var titleName: string
    var searchText: string

    /** The displayed list is always drawn from the full list. (The
        company dropdown follows the full list too: `Load` sets both and
        every other handler leaves both unchanged.) */
    ghost predicate Valid()
      reads this
    {
      IsSubsequence(perfumesDisplay, perfumes)
    }

    function State(): ViewState
      reads this
    {
      ViewState(perfumes, perfumesDisplay, favorites, company, modalVisible,
                showCompanyList, showPriceList, titleName, searchText)
    }

    /** The initial values of the `useState` calls. */
    constructor (store: FavoriteStore)
      ensures this.store == store && Valid()
      ensures State() == ViewState([], [], [], [], false, false, false, AllTitle, "")
    {
      this.store := store;
      perfumes, perfumesDisplay, favorites, company := [], [], [], [];
      modalVisible, showCompanyList, showPriceList := false, false, false;
      titleName, searchText := AllTitle, "";
    }

    /** `getFavorites`: a present entry replaces the in-memory favorites;
        an absent one leaves them as they are. */
    method GetFavorites()
      requires Valid()
      modifies this
      ensures Valid()
      ensures State() == old(State()).(favorites := if store.item.Some? then store.item.value else old(favorites))
    {
      var value := store.GetItem();
      if value.Some? {
        favorites := value.value;
      }
    }

    /** The effect on `perfumes`: the company dropdown gets the distinct
        companies of the full list. */
    method UpdateCompanies()
      requires Valid()
      modifies this
      ensures Valid()
      ensures State() == old(State()).(company := Companies(old(perfumes)))
    {
      company := Companies(perfumes);
    }

    /** The focus effect: reload favorites, then, if the catalog request
        succeeds with `data`, show all of it under "All Perfumes". A failed
        request leaves the catalog as it was. */
    method Load(response: Option<seq<Product>>)
      requires Valid()
      modifies this
      ensures Valid()
      ensures response.Some? ==> company == Companies(perfumes)
      ensures var favs := if store.item.Some? then store.item.value else old(favorites);
        State() == match response
          case None => old(State()).(favorites := favs)
          case Some(data) => old(State()).(favorites := favs, perfumes := data,
                               perfumesDisplay := data, company := Companies(data), titleName := AllTitle)
    {
      GetFavorites();
      if response.Some? {
        var data := response.value;
        titleName := AllTitle;
        perfumes := data;
        perfumesDisplay := data;
        SubsequenceReflexive(data);
        UpdateCompanies();
      }
    }

    /** `handleFilter`: toggles the filter modal. */
    method HandleFilter()
      requires Valid()
      modifies this
      ensures Valid()
      ensures State() == old(State()).(modalVisible := !old(modalVisible))
    {
      modalVisible := !modalVisible;
    }

    /** `handleCompanyClick`: toggles the company list and always closes
        the price list. */
    method HandleCompanyClick()
      requires Valid()
      modifies this
      ensures Valid()
      ensures State() == old(State()).(showCompanyList := !old(showCompanyList), showPriceList := false)
      ensures showCompanyList ==> !showPriceList
    {
      showCompanyList := !showCompanyList;
      showPriceList := false;
    }

    /** `handlePricePress`: opens the price list and leaves the company
        list as it is. */
    method HandlePricePress()
      requires Valid()
      modifies this
      ensures Valid()
      ensures State() == old(State()).(showPriceList := true)
    {
      showPriceList := true;
    }

    /** `setAllPerfumes`: shows the whole list again; the search text is
        left as it is. */
    method SetAllPerfumes()
      requires Valid()
      modifies this
      ensures Valid()
      ensures State() == old(State()).(perfumesDisplay := old(perfumes), modalVisible := false, titleName := AllTitle)
      ensures perfumesDisplay == perfumes
    {
      perfumesDisplay := perfumes;
      modalVisible := false;
      titleName := AllTitle;
      SubsequenceReflexive(perfumes);
    }

    /** `filterByCompany`: shows the products of the full list made by
        `c`, whatever was shown before. */
    method FilterByCompany(c: string)
      requires Valid()
      modifies this
      ensures Valid()
      ensures State() == old(State()).(perfumesDisplay := ByCompany(old(perfumes), c),
                                       titleName := CompanyTitle(c), showCompanyList := false, modalVisible := false)
      ensures forall p :: p in perfumesDisplay <==> p in perfumes && p.company == c
      ensures titleName == "Perfumes of " + c
    {
      perfumesDisplay := ByCompany(perfumes, c);
      titleName := CompanyTitle(c);
      showCompanyList := false;
      modalVisible := false;
      ByCompanyIsSubsequence(perfumes, c);
    }

    /** `filterByPrice`: shows the products of the full list priced from
        `min` to `max`, both included. */
    method FilterByPrice(min: int, max: int)
      requires Valid()
      modifies this
      ensures Valid()
      ensures State() == old(State()).(perfumesDisplay := ByPriceRange(old(perfumes), min, max),
                                       titleName := PriceTitle(min, max), showPriceList := false, modalVisible := false)
      ensures forall p :: p in perfumesDisplay <==> p in perfumes && min <= p.price <= max
      ensures min == 200 ==> titleName == "Perfumes over $200"
      ensures min != 200 ==> titleName == "Perfumes in price $" + Decimal.Show(min) + " and $" + Decimal.Show(max)
    {
      perfumesDisplay := ByPriceRange(perfumes, min, max);
      titleName := PriceTitle(min, max);
      showPriceList := false;
      modalVisible := false;
      ByPriceRangeIsSubsequence(perfumes, min, max);
    }

    /** `handleSearch`: records the text and shows the products of the full
        list whose name contains it, ignoring case; any company or price
        filter is dropped and the title is left as it is. */
    method HandleSearch(text: string)
      requires Valid()
      modifies this
      ensures Valid()
      ensures State() == old(State()).(searchText := text, perfumesDisplay := BySearch(old(perfumes), text))
      ensures forall p :: p in perfumesDisplay <==> p in perfumes && NameMatches(p, text)
      ensures text == "" ==> perfumesDisplay == perfumes
    {
      searchText := text;
      perfumesDisplay := BySearch(perfumes, text);
      BySearchIsSubsequence(perfumes, text);
      if text == "" {
        SearchEmptyKeepsAll(perfumes);
      }
    }

    /** `saveToFavorites`: appends `item` to the STORED list (not to the
        in-memory one), writes it back and reloads it. */
    method SaveToFavorites(item: Product)
      requires Valid()
      modifies this, store
      ensures Valid()
      ensures store.item == Some(StoredOrEmpty(old(store.item)) + [item])
      ensures State() == old(State()).(favorites := StoredOrEmpty(old(store.item)) + [item])
      ensures IsFavorite(favorites, item.id)
      ensures |favorites| == |StoredOrEmpty(old(store.item))| + 1
    {
      var value := store.GetItem();
      var updated := StoredOrEmpty(value) + [item];
      store.SetItem(updated);
      GetFavorites();
      AppendedIsFavorite(StoredOrEmpty(value), item);
    }

    /** `removeFromFavorites`: drops every in-memory favorite with the id,
        writes the result and reloads it. */
    method RemoveFromFavorites(id: int)
      requires Valid()
      modifies this, store
      ensures Valid()
      ensures store.item == Some(WithoutId(old(favorites), id))
      ensures State() == old(State()).(favorites := WithoutId(old(favorites), id))
      ensures !IsFavorite(favorites, id)
    {
      var updated := WithoutId(favorites, id);
      favorites := updated;
      store.SetItem(updated);
      GetFavorites();
      RemovedIsNotFavorite(old(favorites), id);
    }

    /** The heart of a rendered item: `renderItem` marks the item a
        favorite when some favorite has its id, and a press then removes
        that id or saves the item. */
    method PressFavorite(item: Product)
      requires Valid()
      modifies this, store
      ensures Valid()
      ensures IsFavorite(old(favorites), item.id) ==>
        store.item == Some(WithoutId(old(favorites), item.id)) &&
        State() == old(State()).(favorites := WithoutId(old(favorites), item.id))
      ensures !IsFavorite(old(favorites), item.id) ==>
        store.item == Some(StoredOrEmpty(old(store.item)) + [item]) &&
        State() == old(State()).(favorites := StoredOrEmpty(old(store.item)) + [item])
      ensures IsFavorite(favorites, item.id) == !IsFavorite(old(favorites), item.id)
    {
      var isFavorite := IsFavorite(favorites, item.id);
      if isFavorite {
        RemoveFromFavorites(item.id);
      } else {
        SaveToFavorites(item);
      }
    }
  }

  /** A session on a two-product catalog: load, pick a company, then pick
      price ranges. */
  method Walkthrough() {
    var aqua := Product(1, "Aqua", "Dior", 80, "", [Feedback(4), Feedback(5)]);
    var sauvage := Product(2, "Sauvage", "Dior", 120, "", []);
    var store := new FavoriteStore();
    var screen := new Perfumes(store);

    screen.Load(Some([aqua, sauvage]));
    assert screen.perfumesDisplay == [aqua, sauvage] && screen.titleName == "All Perfumes";

    screen.FilterByCompany("Dior");
    assert aqua in screen.perfumesDisplay && sauvage in screen.perfumesDisplay;
    assert screen.titleName == "Perfumes of Dior";

    screen.FilterByPrice(100, 150);
    assert sauvage in screen.perfumesDisplay && aqua !in screen.perfumesDisplay;

    screen.FilterByPrice(80, 80);
    assert aqua in screen.perfumesDisplay;
  }

  /** Opening the company list and then the price list leaves both open;
      a click on the company list closes the price list again. */
  method PanelWalkthrough() {
    var store := new FavoriteStore();
    var screen := new Perfumes(store);
    screen.HandleCompanyClick();
    screen.HandlePricePress();
    assert screen.showCompanyList && screen.showPriceList;
    screen.HandleCompanyClick();
    assert !screen.showCompanyList && !screen.showPriceList;
  }

  /** Pressing the heart twice favorites the item and then unfavorites it. */
  method FavoriteWalkthrough() {
    var aqua := Product(1, "Aqua", "Dior", 80, "", [Feedback(4), Feedback(5)]);
    var store := new FavoriteStore();
    var screen := new Perfumes(store);
    screen.PressFavorite(aqua);
    assert [] + [aqua] == [aqua];
    assert IsFavorite(screen.favorites, 1) && store.item == Some([aqua]);
    screen.PressFavorite(aqua);
    assert !IsFavorite(screen.favorites, 1);
  }

  /** A product named "Aqua" matches the search text "aqua". */
  lemma AquaMatches(p: Product)
    requires p.perfumeName == "Aqua"
    ensures NameMatches(p, "aqua")
  {
    assert Lower("Aqua") == "aqua";
    assert Includes("aqua", "aqua");
  }

  /** A product named "Sauvage" does not match "aqua": no suffix of
      "sauvage" starts with it. */
  lemma SauvageMisses(p: Product)
    requires p.perfumeName == "Sauvage"
    ensures !NameMatches(p, "aqua")
  {
    assert Lower("Sauvage") == "sauvage";
    assert Lower("aqua") == "aqua";
    TooShortExcludes("age", "aqua");
    assert "vage"[1..] == "age" && "vage"[..4][0] != 'a';
    assert "uvage"[1..] == "vage" && "uvage"[..4][0] != 'a';
    assert "auvage"[1..] == "uvage" && "auvage"[..4][1] != 'q';
    assert "sauvage"[1..] == "auvage" && "sauvage"[..4][0] != 'a';
  }

  /** Searching the same catalog, case-insensitively. */
  method SearchWalkthrough() {
    var aqua := Product(1, "Aqua", "Dior", 80, "", [Feedback(4), Feedback(5)]);
    var sauvage := Product(2, "Sauvage", "Dior", 120, "", []);
    AquaMatches(aqua);
    SauvageMisses(sauvage);
    var store := new FavoriteStore();
    var screen := new Perfumes(store);
    screen.Load(Some([aqua, sauvage]));
    screen.HandleSearch("aqua");
    assert aqua in screen.perfumesDisplay && sauvage !in screen.perfumesDisplay;
    assert screen.titleName == "All Perfumes" && screen.searchText == "aqua";
  }
}
