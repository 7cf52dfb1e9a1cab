/** The records the pages keep: dishes from the server and the entries of the local lists. */
module Dishes {

  type Id = int

  /** A dish as the server sends it; an absent count is held as 0. */
  datatype Dish = Dish(id: Id, name: string, image: string, description: string, difficulty: int,
                       cookingTime: int, categoryName: string, viewCount: int, collectCount: int)

  /** An entry of the local favorites list, stamped with the time it was added. */
  datatype Favorite = Favorite(id: Id, name: string, image: string, description: string, difficulty: int,
                               cookingTime: int, categoryName: string, viewCount: int, collectCount: int,
                               createTime: string)

  /** An entry of the local view history, with the time of the last view and the number of views. */
  datatype ViewEntry = ViewEntry(id: Id, name: string, image: string, description: string, difficulty: int,
                                 cookingTime: int, categoryName: string, viewTime: string, viewCount: int)

  datatype Category = Category(id: int, name: string)

  function FavoriteId(f: Favorite): Id { f.id }

  function ViewId(e: ViewEntry): Id { e.id }

  /**
   * `getDifficultyText` (the same table in the search, dish-detail,
   * favorites and category pages): 1, 2 and 3 are named, everything else is '未知'.
   */
  function DifficultyText(difficulty: int): (text: string)
    ensures text == "简单" <==> difficulty == 1
    ensures text == "中等" <==> difficulty == 2
    ensures text == "困难" <==> difficulty == 3
    ensures text == "未知" <==> !(1 <= difficulty <= 3)
  {
    if difficulty == 1 then "简单"
    else if difficulty == 2 then "中等"
    else if difficulty == 3 then "困难"
    else "未知"
  }
}
