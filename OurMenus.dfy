/**
 * The home-page menu slider: five fixed menu cards, three of them shown
 * at a time starting at `currentIndex`, continuing from the first card
 * when the window runs past the last one.
 */
module OurMenus {
  import opened Carousel

  /** One card: its heading, its text and its picture. */
  datatype MenuCard = MenuCard(category: string, description: string, imageUrl: string)

  const MenuCategories: seq<MenuCard> := [
    MenuCard("Vegetarian Delights",
      "Fresh seasonal vegetables prepared with aromatic spices and traditional techniques",
      "https://images.pexels.com/photos/1640772/pexels-photo-1640772.jpeg?auto=compress&cs=tinysrgb&w=800"),
    MenuCard("Non-Vegetarian Specialties",
      "Tender meats and seafood, expertly grilled and marinated with signature spices",
      "https://images.pexels.com/photos/2338407/pexels-photo-2338407.jpeg?auto=compress&cs=tinysrgb&w=800"),
    MenuCard("Exquisite Desserts",
      "Traditional sweets and contemporary desserts to end your meal on a sweet note",
      "https://images.pexels.com/photos/291528/pexels-photo-291528.jpeg?auto=compress&cs=tinysrgb&w=800"),
    MenuCard("Appetizers & Starters",
      "An array of savory bites to begin your culinary journey",
      "https://images.pexels.com/photos/1639562/pexels-photo-1639562.jpeg?auto=compress&cs=tinysrgb&w=800"),
    MenuCard("Beverages",
      "Refreshing drinks and traditional beverages to complement your meal",
      "https://images.pexels.com/photos/1233319/pexels-photo-1233319.jpeg?auto=compress&cs=tinysrgb&w=800")
  ]

  /** `Array.prototype.slice(start, end)` for non-negative bounds: both are clamped to the length. */
  function Slice<T>(s: seq<T>, start: nat, end: nat): (r: seq<T>)
    ensures |r| == if start < end && start < |s| then (if end < |s| then end else |s|) - start else 0
    ensures forall k :: 0 <= k < |r| ==> r[k] == s[start + k]
  {
    var a := if start < |s| then start else |s|;
    var b := if end < |s| then end else |s|;
    if a <= b then s[a..b] else []
  }

  /** `slice(0, (i + 3) % n)`, rendered after the main part only when `i + 3 > n`. */
  function WrapPart<T>(s: seq<T>, i: nat): seq<T>
    requires |s| > 0
  {
    if i + 3 > |s| then Slice(s, 0, (i + 3) % |s|) else []
  }

  /** The rendered cards: `slice(i, i + 3)` followed by the wrapped part. */
  function Window<T>(s: seq<T>, i: nat): seq<T>
    requires |s| > 0
  {
    Slice(s, i, i + 3) + WrapPart(s, i)
  }

  /**
   * For a list of at least three and a valid start, the wrapped part is
   * present exactly when the window runs past the end and then holds
   * `(i + 3) % n` cards; the window holds three cards, card `k` being
   * the one `k` places after the start, round the ring.
   */
  lemma WindowShape<T>(s: seq<T>, i: nat)
    requires |s| >= 3 && i < |s|
    ensures WrapPart(s, i) != [] <==> i + 3 > |s|
    ensures i + 3 > |s| ==> |WrapPart(s, i)| == (i + 3) % |s|
    ensures |Window(s, i)| == 3
    ensures forall k :: 0 <= k < 3 ==> Window(s, i)[k] == s[(i + k) % |s|]
  {
    var n := |s|;
    if i + 3 > n {
      ModuloOnce(i + 3, n);
      var w := Window(s, i);
      forall k | 0 <= k < 3
        ensures w[k] == s[(i + k) % n]
      {
        if i + k < n {
          ModuloOnce(i + k, n);
        } else {
          ModuloOnce(i + k, n);
          assert w[k] == WrapPart(s, i)[k - (n - i)];
        }
      }
    } else {
      forall k | 0 <= k < 3
        ensures Window(s, i)[k] == s[(i + k) % n]
      {
        ModuloOnce(i + k, n);
      }
    }
  }

  /** Below twice the modulus, `%` subtracts it at most once. */
  lemma ModuloOnce(x: nat, n: nat)
    requires 0 < n && x < 2 * n
    ensures x % n == if x < n then x else x - n
  {
    if x >= n {
      assert x == 1 * n + (x - n);
    }
  }

  class Slider {
    var currentIndex: nat

    ghost predicate Valid()
      reads this
    {
      currentIndex < |MenuCategories|
    }

    constructor ()
      ensures currentIndex == 0 && Valid()
    {
      currentIndex := 0;
    }

    function Shown(): seq<MenuCard>
      reads this
    {
      Window(MenuCategories, currentIndex)
    }

    method Next()
      requires Valid()
      modifies this`currentIndex
      ensures currentIndex == Forward(old(currentIndex), |MenuCategories|) && Valid()
    {
      currentIndex := (currentIndex + 1) % |MenuCategories|;
    }

    method Prev()
      requires Valid()
      modifies this`currentIndex
      ensures currentIndex == Backward(old(currentIndex), |MenuCategories|) && Valid()
    {
      currentIndex := (currentIndex - 1 + |MenuCategories|) % |MenuCategories|;
    }

    /** Dot `index`, one per card. */
    method GoTo(index: nat)
      requires index < |MenuCategories|
      modifies this`currentIndex
      ensures currentIndex == index && Valid()
    {
      currentIndex := index;
    }
  }

  /** At every reachable index three cards show, starting with the current one. */
  lemma ShownCards(i: nat)
    requires i < |MenuCategories|
    ensures |Window(MenuCategories, i)| == 3
    ensures Window(MenuCategories, i)[0] == MenuCategories[i]
    ensures forall k :: 0 <= k < 3 ==>
      Window(MenuCategories, i)[k] == MenuCategories[(i + k) % |MenuCategories|]
  {
    WindowShape(MenuCategories, i);
  }
}
