/** The shared data model of the main application (types.ts). */
module Types {
  import opened Wrappers

  /** The five clothing categories; `Value` is the string each enum member stands for. */
  datatype Category = Tops | Bottoms | Dresses | Shoes | Accessories {
    /** The enum's string. This prototype spells the dress category in capitals. */
    function Value(): (s: string)
      ensures s != "All"
    {
      match this
      case Tops => "Tops"
      case Bottoms => "Bottoms"
      case Dresses => "DRESSES"
      case Shoes => "Shoes"
      case Accessories => "Accessories"
    }
  }

  /** `Object.values(Category)`, in declaration order. */
  const AllCategories: seq<Category> := [Tops, Bottoms, Dresses, Shoes, Accessories]

  /** The five enum members are distinct, each appears once, and their strings are distinct. */
  lemma CategoriesEnumerated()
    ensures |AllCategories| == 5
    ensures forall c: Category :: c in AllCategories
    ensures forall i, j :: 0 <= i < j < 5 ==> AllCategories[i].Value() != AllCategories[j].Value()
    ensures Dresses.Value() == "DRESSES" && Dresses.Value() != "Dresses"
  {
    forall c: Category ensures c in AllCategories {
      match c
      case Tops => assert AllCategories[0] == c;
      case Bottoms => assert AllCategories[1] == c;
      case Dresses => assert AllCategories[2] == c;
      case Shoes => assert AllCategories[3] == c;
      case Accessories => assert AllCategories[4] == c;
    }
  }

  /** A user-defined label/value pair (`label` is a Dafny keyword, hence `labelText`). */
  datatype CustomAttribute = CustomAttribute(labelText: string, value: string)

  /** Which field of a custom attribute an edit changes (`keyof CustomAttribute`). */
  datatype AttributeField = Label | Value

  /**
    A garment. `isProcessing` and `processingProgress` are optional; an absent progress
    reads as 0.
  */
  datatype ClosetItem = ClosetItem(
    id: string,
    name: string,
    category: Category,
    tags: seq<string>,
    color: string,
    season: string,
    suggestion: Option<string>,
    imageUrl: string,
    originalImageUrl: string,
    customAttributes: Option<seq<CustomAttribute>>,
    isProcessing: Option<bool>,
    processingProgress: Option<int>)
  {
    /** `item.processingProgress || 0`. */
    function Progress(): (p: int)
      ensures processingProgress.None? ==> p == 0
      ensures processingProgress.Some? ==> p == processingProgress.value
    {
      processingProgress.GetOr(0)
    }

    /** `item.isProcessing && (item.processingProgress || 0) < 100`: waiting for background removal. */
    predicate IsPending() {
      isProcessing == Some(true) && Progress() < 100
    }
  }

  /** The id accessor used by the by-id collection updates. */
  function ItemId(item: ClosetItem): string { item.id }

  datatype UserAccount = UserAccount(id: string, username: string, avatar: Option<string>)

  datatype UserProfile = UserProfile(name: string, photoUrl: Option<string>, bodyPhotoUrl: Option<string>)

  datatype BodyParams = BodyParams(shoulderWidth: real, waistWidth: real, heightRatio: real)

  /** `previewStatus`: absent, or one of these three. */
  datatype PreviewStatus = Generating | Done | Failed

  /** An outfit embeds copies of its items, not their ids. */
  datatype Outfit = Outfit(
    id: string,
    name: string,
    scenario: string,
    items: seq<ClosetItem>,
    score: real,
    review: string,
    createdAt: int,
    previewUrl: Option<string>,
    localPreviewUrl: Option<string>,
    previewStatus: Option<PreviewStatus>)

  function OutfitId(o: Outfit): string { o.id }

  datatype AIRecommendation = AIRecommendation(
    id: string,
    name: string,
    review: string,
    score: real,
    scenario: string,
    itemIds: seq<string>,
    previewUrl: Option<string>,
    isGenerating: Option<bool>)

  function RecommendationId(r: AIRecommendation): string { r.id }

  /** The five top-level screens. */
  datatype View = ClosetView | DiscoverView | OutfitsView | CalendarView | ProfileView {
    function Name(): string {
      match this
      case ClosetView => "Closet"
      case DiscoverView => "Discover"
      case OutfitsView => "Outfits"
      case CalendarView => "Calendar"
      case ProfileView => "Profile"
    }
  }

  const AllViews: seq<View> := [ClosetView, DiscoverView, OutfitsView, CalendarView, ProfileView]

  lemma ViewsEnumerated()
    ensures |AllViews| == 5
    ensures forall v: View :: v in AllViews
    ensures forall i, j :: 0 <= i < j < 5 ==> AllViews[i].Name() != AllViews[j].Name()
  {
    forall v: View ensures v in AllViews {
      match v
      case ClosetView => assert AllViews[0] == v;
      case DiscoverView => assert AllViews[1] == v;
      case OutfitsView => assert AllViews[2] == v;
      case CalendarView => assert AllViews[3] == v;
      case ProfileView => assert AllViews[4] == v;
    }
  }

  /** Date string "YYYY-MM-DD" to outfit id: at most one outfit per date. */
  type CalendarMap = map<string, string>

  /** A JavaScript string used as a condition: `undefined` and `''` are falsy. */
  predicate Truthy(s: Option<string>) {
    s.Some? && s.value != ""
  }
}
