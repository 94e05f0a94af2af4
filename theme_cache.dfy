/** The process-wide theme cache of go/theme_cache.go: a map from user ID to
    that user's theme. The sync.Map holds values of any type and GetThemeCache
    asserts them back to ThemeModel; here the map is typed, so no assertion
    can fail. */
module ThemeCache {

  /** A themes row (id, user_id, dark_mode). */
  datatype ThemeModel = ThemeModel(id: int, userId: int, darkMode: bool)

  /** Go's zero value ThemeModel{}. */
  const ZeroTheme := ThemeModel(0, 0, false)

  /** GetThemeCache on a map value: the stored theme and true, or the zero
      theme and false. */
  function LoadTheme(themes: map<int, ThemeModel>, userId: int): (r: (ThemeModel, bool))
    ensures r.1 <==> userId in themes
    ensures r.1 ==> r.0 == themes[userId]
    ensures !r.1 ==> r.0 == ZeroTheme
  {
    if userId in themes then (themes[userId], true) else (ZeroTheme, false)
  }

  /** A run of AddThemeCache calls, each (user ID, theme), in order. */
  function StoreAll(themes: map<int, ThemeModel>, stores: seq<(int, ThemeModel)>): map<int, ThemeModel>
  {
    if stores == [] then themes
    else StoreAll(themes, stores[..|stores| - 1])[stores[|stores| - 1].0 := stores[|stores| - 1].1]
  }

  /** After a run of stores, a user that no store named reads what they read
      before. */
  lemma {:induction false} LoadAfterOtherStores(themes: map<int, ThemeModel>, stores: seq<(int, ThemeModel)>, userId: int)
    requires forall i :: 0 <= i < |stores| ==> stores[i].0 != userId
    ensures LoadTheme(StoreAll(themes, stores), userId) == LoadTheme(themes, userId)
    decreases |stores|
  {
    if stores != [] {
      LoadAfterOtherStores(themes, stores[..|stores| - 1], userId);
    }
  }

  /** Last write wins: after a run of stores, a user reads the theme of the
      last store that named them. */
  lemma {:induction false} LoadAfterStores(themes: map<int, ThemeModel>, stores: seq<(int, ThemeModel)>, i: nat)
    requires i < |stores|
    requires forall j :: i < j < |stores| ==> stores[j].0 != stores[i].0
    ensures LoadTheme(StoreAll(themes, stores), stores[i].0) == (stores[i].1, true)
    decreases |stores|
  {
    if i < |stores| - 1 {
      var init := stores[..|stores| - 1];
      assert init[i] == stores[i];
      LoadAfterStores(themes, init, i);
    }
  }

  /** The cache object; `themes` stands for the global sync.Map. */
  class Cache {
    var themes: map<int, ThemeModel>

    /** A fresh sync.Map: no user has a theme. */
    constructor ()
      ensures themes == map[]
    {
      themes := map[];
    }

    /** GetThemeCache: the stored theme and true, or the zero theme and false. */
    function Get(userId: int): (r: (ThemeModel, bool))
      reads this
      ensures r.1 <==> userId in themes
      ensures r.1 ==> r.0 == themes[userId]
      ensures !r.1 ==> r.0 == ZeroTheme
    {
      LoadTheme(themes, userId)
    }

    /** AddThemeCache: store, overwriting any earlier theme of the user. */
    method Add(userId: int, theme: ThemeModel)
      modifies this
      ensures themes == old(themes)[userId := theme]
      ensures Get(userId) == (theme, true)
      ensures forall u :: u != userId ==> Get(u) == old(Get(u))
    {
      themes := themes[userId := theme];
    }

    /** InitThemeCache: replace the map with an empty one. */
    method Init()
      modifies this
      ensures themes == map[]
      ensures forall u :: Get(u) == (ZeroTheme, false)
    {
      themes := map[];
    }
  }
}
