/** The row of the local `items` table (data class ItemEntity) and its
    construction with Kotlin's default arguments. */
module ItemEntityModel {
  import opened Wrappers
  import opened Text

  /** One cached item. `id` is the table's sole primary key (autoGenerate);
      `userId` is an indexed, non-unique column naming the owning account;
      timestamps are epoch milliseconds. */
  datatype ItemEntity = ItemEntity(
    id: int,
    userId: string,
    name: string,
    description: Option<string>,
    quantity: Int32,
    createdAt: int,
    updatedAt: int)

  /** The id value that asks the store to assign a fresh key. */
  const UnassignedId: int := 0

  /** `ItemEntity(...)` with the constructor's defaults: `id = 0`,
      `quantity = 0`, and both timestamps read from the clock at construction,
      which here is the parameter `now`. `userId`, `name` and `description`
      have no default and must always be given. */
  function NewItemEntity(userId: string, name: string, description: Option<string>, now: int,
                         id: int := UnassignedId, quantity: Int32 := 0,
                         createdAt: int := now, updatedAt: int := now): ItemEntity
  {
    ItemEntity(id, userId, name, description, quantity, createdAt, updatedAt)
  }

  /** Omitting every defaulted argument yields id 0 (store-assigned), quantity 0
      and both timestamps equal to the construction time. */
  lemma NewItemEntityDefaults(userId: string, name: string, description: Option<string>, now: int)
    ensures NewItemEntity(userId, name, description, now) == ItemEntity(UnassignedId, userId, name, description, 0, now, now)
  {
  }
}
