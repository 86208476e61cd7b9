/** Inventory items: the key type of every inventory map. */
module Items {

  /** The five item categories. */
  datatype ItemType = Currency | Food | Weapon | Armor | Misc

  /** An item. `value` is its price as (name of the currency item, amount).
      Equality is structural over all four fields, as with a derived Eq/Hash,
      so an item is a distinct map key from any item that differs in any field. */
  datatype Item = Item(name: string, itemType: ItemType, description: string, value: (string, int))

  /** `Item::new`: stores the four arguments unchanged. */
  function NewItem(name: string, itemType: ItemType, description: string, value: (string, int)): (it: Item)
    ensures it.name == name && it.itemType == itemType
    ensures it.description == description && it.value == value
  {
    Item(name, itemType, description, value)
  }

  /** Every item type is one of the five categories. */
  lemma ItemTypeCases(t: ItemType)
    ensures t == Currency || t == Food || t == Weapon || t == Armor || t == Misc
  {
  }

  /** Two items built by `NewItem` are equal exactly when all four arguments are. */
  lemma NewItemInjective(n1: string, t1: ItemType, d1: string, v1: (string, int),
                         n2: string, t2: ItemType, d2: string, v2: (string, int))
    ensures NewItem(n1, t1, d1, v1) == NewItem(n2, t2, d2, v2)
        <==> n1 == n2 && t1 == t2 && d1 == d2 && v1 == v2
  {
  }

  /** Sharing a name does not make two items the same key: an item that differs
      only in its description is a different map key, which is why the inventory
      code has to match entries by name itself. */
  lemma SameNameDistinctKeys(it: Item, otherDescription: string)
    requires otherDescription != it.description
    ensures var twin := NewItem(it.name, it.itemType, otherDescription, it.value);
            twin.name == it.name && twin != it
            && map[it := 1, twin := 2].Keys == {it, twin}
  {
  }
}
