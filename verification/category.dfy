/**
 * The Category model: the record the enrichment side reads (owner,
 * priority, archive flag), the priority table, and the card colour and icon
 * a category is shown with.
 */
module CategoryModel {
  import opened Wrappers
  import opened PhpText

  datatype Category = Category(id: int, userId: int, name: string, description: Option<string>,
                               priority: int, archiveAfterProcessing: bool)

  /** The priority table, 10 (highest) down to 1. */
  const PriorityLevels: map<int, string> := map[
    10 := "Critical (Highest)", 9 := "Very High", 8 := "High", 7 := "Elevated", 6 := "Above Normal",
    5 := "Normal", 4 := "Below Normal", 3 := "Low", 2 := "Very Low", 1 := "Minimal (Lowest)"]

  /** The table has exactly the priorities 1 to 10, and no entry reads "Unknown". */
  lemma PriorityLevelsExact()
    ensures forall p :: p in PriorityLevels <==> 1 <= p <= 10
    ensures forall p :: p in PriorityLevels ==> PriorityLevels[p] != "Unknown"
  {
    forall p | 1 <= p <= 10
      ensures p in PriorityLevels
    {
      assert p == 1 || p == 2 || p == 3 || p == 4 || p == 5 || p == 6 || p == 7 || p == 8 || p == 9 || p == 10;
    }
  }

  /** Category::getPriorityLabel: the table entry, or "Unknown". */
  function PriorityLabel(p: int): (text: string)
    ensures p in PriorityLevels ==> text == PriorityLevels[p]
    ensures text == "Unknown" <==> !(1 <= p <= 10)
  {
    PriorityLevelsExact();
    assert 1 <= p <= 10 ==> p in PriorityLevels;
    if p in PriorityLevels then PriorityLevels[p] else "Unknown"
  }

  /** The gradients a card is drawn with, lowest band first. */
  datatype CardColor = GreenEmerald | PurplePink | BlueCyan | OrangeYellow | RedOrange

  function ColorClasses(c: CardColor): string {
    match c
    case RedOrange => "from-red-500 to-orange-500"
    case OrangeYellow => "from-orange-500 to-yellow-500"
    case BlueCyan => "from-blue-500 to-cyan-500"
    case PurplePink => "from-purple-500 to-pink-500"
    case GreenEmerald => "from-green-500 to-emerald-500"
  }

  function Band(c: CardColor): nat {
    match c
    case GreenEmerald => 0
    case PurplePink => 1
    case BlueCyan => 2
    case OrangeYellow => 3
    case RedOrange => 4
  }

  /** getCardColorAttribute: thresholds 9, 7, 5 and 3. */
  function CardColorOf(priority: int): (c: CardColor)
    ensures priority >= 9 <==> c == RedOrange
    ensures priority < 3 <==> c == GreenEmerald
  {
    if priority >= 9 then RedOrange
    else if priority >= 7 then OrangeYellow
    else if priority >= 5 then BlueCyan
    else if priority >= 3 then PurplePink
    else GreenEmerald
  }

  /** A higher priority never gets a lower colour band. */
  lemma CardColorMonotone(p: int, q: int)
    requires p <= q
    ensures Band(CardColorOf(p)) <= Band(CardColorOf(q))
  {
  }

  /** The icons a card can show (the SVG paths themselves are presentation). */
  datatype CardIcon = Briefcase | ShoppingBag | People | Warning | Chat | Coin | Globe | Newspaper | Sparkles | Tag

  /** The keyword groups, tested in this order on the lower-cased name. */
  const IconGroups: seq<(seq<string>, CardIcon)> := [
    (["work", "job"], Briefcase),
    (["shop", "order", "purchase"], ShoppingBag),
    (["personal", "family", "friend"], People),
    (["urgent", "important", "critical"], Warning),
    (["social", "media"], Chat),
    (["finance", "bank", "bill"], Coin),
    (["travel", "trip", "flight"], Globe),
    (["news", "newsletter"], Newspaper)]

  predicate AnyContained(name: string, keywords: seq<string>) {
    exists k :: 0 <= k < |keywords| && Contains(name, keywords[k])
  }

  /** The icon of the first group, from index i on, with a keyword in the name. */
  function FirstGroupIcon(name: string, groups: seq<(seq<string>, CardIcon)>, i: nat): (r: Option<CardIcon>)
    requires i <= |groups|
    ensures r.None? <==> forall g :: i <= g < |groups| ==> !AnyContained(name, groups[g].0)
    ensures r.Some? ==> exists g :: i <= g < |groups| && AnyContained(name, groups[g].0) && r.value == groups[g].1
                          && forall h :: i <= h < g ==> !AnyContained(name, groups[h].0)
    decreases |groups| - i
  {
    if i == |groups| then None
    else if AnyContained(name, groups[i].0) then Some(groups[i].1)
    else FirstGroupIcon(name, groups, i + 1)
  }

  /**
   * getCardIconAttribute: the icon of the first keyword group found in the
   * lower-cased name; with none, the sparkles icon from priority 8 up and
   * the tag icon below.
   */
  function CardIconOf(name: string, priority: int): (icon: CardIcon)
    ensures FirstGroupIcon(Lower(name), IconGroups, 0).Some? ==> icon == FirstGroupIcon(Lower(name), IconGroups, 0).value
    ensures FirstGroupIcon(Lower(name), IconGroups, 0).None? ==> (icon == Sparkles <==> priority >= 8)
    ensures FirstGroupIcon(Lower(name), IconGroups, 0).None? ==> (icon == Tag <==> priority < 8)
  {
    match FirstGroupIcon(Lower(name), IconGroups, 0)
    case Some(icon) => icon
    case None => if priority >= 8 then Sparkles else Tag
  }

  /** Names are matched without regard to ASCII case. */
  lemma CardIconIgnoresCase(name: string, priority: int)
    ensures CardIconOf(Lower(name), priority) == CardIconOf(name, priority)
  {
    assert Lower(Lower(name)) == Lower(name);
  }

  /** The first group wins: any name mentioning "work" gets the briefcase, whatever else it mentions. */
  lemma WorkNamesGetBriefcase(name: string, priority: int)
    requires Contains(Lower(name), "work")
    ensures CardIconOf(name, priority) == Briefcase
  {
    assert IconGroups[0].0[0] == "work";
    assert AnyContained(Lower(name), IconGroups[0].0);
  }
}
