/**
 * The part of an inventory item that quests and drop tables look at: its
 * identity and whether several of it share one inventory slot.
 */
module Inventories {

  datatype InventoryItem = InventoryItem(itemID: string, stackable: bool)

  /** One request to the inventory: an item and how many of it. */
  datatype Addition = Addition(item: InventoryItem, number: int)
}
