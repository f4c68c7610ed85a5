/**
  The data model of the second prototype (smart-my-closet-ai/types.ts): a leaner
  garment record, body metrics for the 3D figure, outfits that may carry a video,
  and the four tabs of the app shell.
*/
module SmartTypes {
  import opened Wrappers

  /** The five clothing categories; unlike the main application, the dress category reads `'Dresses'`. */
  datatype Category = Tops | Bottoms | Dresses | Shoes | Accessories {
    function Value(): (s: string)
      ensures s != "All"
    {
      match this
      case Tops => "Tops"
      case Bottoms => "Bottoms"
      case Dresses => "Dresses"
      case Shoes => "Shoes"
      case Accessories => "Accessories"
    }
  }

  /** `Object.values(Category)`, in declaration order. */
  const AllCategories: seq<Category> := [Tops, Bottoms, Dresses, Shoes, Accessories]

  /** Every category appears once, the five strings are distinct, and the dress string is `'Dresses'`. */
  lemma CategoriesEnumerated()
    ensures |AllCategories| == 5
    ensures forall c: Category :: c in AllCategories
    ensures forall i, j :: 0 <= i < j < 5 ==> AllCategories[i].Value() != AllCategories[j].Value()
    ensures Dresses.Value() == "Dresses" && Dresses.Value() != "DRESSES"
  {
    forall c: Category ensures c in AllCategories {
      match c
      case Tops => assert AllCategories[0] == c;
      case Bottoms => assert AllCategories[1] == c;
      case Dresses => assert AllCategories[2] == c;
      case Shoes => assert AllCategories[3] == c;
      case Accessories => assert AllCategories[4] == c;
    }
  }

  /** A garment: no name, season or processing state, and an optional original photo. */
  datatype ClosetItem = ClosetItem(
    id: string,
    category: Category,
    tags: seq<string>,
    color: string,
    imageUrl: string,
    originalImageUrl: Option<string>)

  /** Multipliers applied to the 3D figure. */
  datatype BodyMetrics = BodyMetrics(shoulderWidth: real, waistWidth: real, heightRatio: real)

  /** A saved look: the garments themselves, an optional generated video and a creation time. */
  datatype Outfit = Outfit(
    id: string,
    name: string,
    items: seq<ClosetItem>,
    videoUrl: Option<string>,
    createdAt: nat)

  /** The tabs of the app shell. */
  datatype AppTab = ClosetTab | OutfitsTab | TryOnTab | ProfileTab {
    function Name(): string
    {
      match this
      case ClosetTab => "closet"
      case OutfitsTab => "outfits"
      case TryOnTab => "try-on"
      case ProfileTab => "profile"
    }
  }

  /** The tab a string names, if any: the string union admits exactly four values. */
  function TabNamed(s: string): (r: Option<AppTab>)
    ensures r.Some? ==> r.value.Name() == s
    ensures forall t: AppTab :: t.Name() == s ==> r == Some(t)
  {
    if s == "closet" then Some(ClosetTab)
    else if s == "outfits" then Some(OutfitsTab)
    else if s == "try-on" then Some(TryOnTab)
    else if s == "profile" then Some(ProfileTab)
    else None
  }
}
