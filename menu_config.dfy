/**
 * The parsed menu file (MenuConfig and MenuConfig.ItemConfig): plain values.
 * A map of items is given as the sequence of its values in the map's
 * iteration order, which is the only way the dialogs use it.
 */
module MenuConfig {
  import opened Wrappers
  import opened Strings

  /** The `slot` value of an item: an Integer, a String, or absent. */
  datatype SlotValue = IntSlot(index: int) | TextSlot(text: string) | NoSlot

  datatype ItemConfig = ItemConfig(
    id: string,
    itemType: Option<string>,
    name: Option<string>,
    lore: Option<seq<string>>,
    amount: int,
    customModelData: Option<int>,
    slot: SlotValue,
    slots: Option<seq<string>>,
    clickAction: Option<seq<string>>
  )

  datatype Menu = Menu(
    title: string,
    commands: Option<seq<string>>,
    openActions: Option<seq<string>>,
    closeActions: Option<seq<string>>,
    items: seq<ItemConfig>,
    playerItems: seq<ItemConfig>
  )

  /** A Bukkit material, by the name of its enum constant. */
  type Material = string

  const STONE: Material := "STONE"
  const PLAYER_HEAD: Material := "PLAYER_HEAD"
  const RED_BED: Material := "RED_BED"

  /** `ItemConfig.parseMaterial`; `known` holds the names `Material.valueOf`
      accepts. The special prefixes and `random_bed` are matched case-sensitively. */
  function ParseMaterial(itemType: Option<string>, known: set<Material>): (m: Material)
    ensures m == STONE || m == PLAYER_HEAD || m == RED_BED || m in known
    ensures itemType.None? ==> m == STONE
  {
    if itemType.None? then STONE
    else
      var t := itemType.value;
      if "craftEngine-" <= t then STONE
      else if "mythicMobs-" <= t then STONE
      else if "head-" <= t then PLAYER_HEAD
      else if t == "random_bed" then RED_BED
      else if Upper(t) in known then Upper(t)
      else STONE
  }

  /** The plugin-specific prefixes always resolve to STONE. */
  lemma ForeignItemsAreStone(t: string, known: set<Material>)
    requires "craftEngine-" <= t || "mythicMobs-" <= t
    ensures ParseMaterial(Some(t), known) == STONE
  {
  }

  /** `head-…` gives a player head and `random_bed` a red bed, whatever
      `known` holds. */
  lemma SpecialNames(t: string, known: set<Material>)
    ensures "head-" <= t ==> ParseMaterial(Some(t), known) == PLAYER_HEAD
    ensures ParseMaterial(Some("random_bed"), known) == RED_BED
  {
    var bed := "random_bed";
    assert bed[0] == 'r';
    assert !("craftEngine-" <= bed) && !("mythicMobs-" <= bed) && !("head-" <= bed);
    if "head-" <= t {
      assert t[0] == 'h';
    }
  }

  /** A name outside the special cases whose upper-case form is no material
      falls back to STONE. */
  lemma UnknownIsStone(t: string, known: set<Material>)
    requires !("craftEngine-" <= t) && !("mythicMobs-" <= t) && !("head-" <= t) && t != "random_bed"
    requires Upper(t) !in known
    ensures ParseMaterial(Some(t), known) == STONE
  {
  }

  /** No ASCII lower-case letter in the text. */
  predicate NoLowerLetter(s: string) {
    forall i :: 0 <= i < |s| ==> !('a' <= s[i] <= 'z')
  }

  /** Upper-casing undoes lower-casing on a text with no lower-case letter. */
  lemma UpperLowerRoundTrip(s: string)
    requires NoLowerLetter(s)
    ensures Upper(Lower(s)) == s
  {
    forall i | 0 <= i < |s| ensures Upper(Lower(s))[i] == s[i] {
      assert Lower(s)[i] == LowerChar(s[i]);
    }
  }

  /** A lower-cased text never starts with `craftEngine-` or `mythicMobs-`,
      each of which has an upper-case letter (at index 5 and 6). */
  lemma LowerHasNoForeignPrefix(s: string)
    ensures !("craftEngine-" <= Lower(s)) && !("mythicMobs-" <= Lower(s))
  {
    if |s| > 6 {
      assert Lower(s)[5] == LowerChar(s[5]) != 'E';
      assert Lower(s)[6] == LowerChar(s[6]) != 'M';
      assert "craftEngine-"[5] == 'E' && "mythicMobs-"[6] == 'M';
    }
  }

  /** The configured name of a material, written in lower case, resolves to
      that material: `valueOf(name.toUpperCase())` inverts `toLowerCase`. */
  lemma {:induction false} LowerCaseNameResolves(n: Material, known: set<Material>)
    requires n in known && NoLowerLetter(n)
    requires !("head-" <= Lower(n)) && Lower(n) != "random_bed"
    ensures ParseMaterial(Some(Lower(n)), known) == n
  {
    LowerHasNoForeignPrefix(n);
    UpperLowerRoundTrip(n);
  }
}
