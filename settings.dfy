/** The constants the modelled code reads from the project settings. */
module Settings {

  /** Upper bound of an ingredient amount in a recipe. */
  const LimitIngredientAmount: int := 2000

  /**
   * The range of a PostgreSQL `smallint`, the column type of a
   * `PositiveSmallIntegerField` on the configured database engine.
   */
  const SmallIntMin: int := -32768
  const SmallIntMax: int := 32767

  /**
   * The three texts a relation toggle answers with: a repeated add, a removal
   * of a missing row, and a successful removal.
   */
  datatype Messages = Messages(postFailureRepeating: string, deleteFailure404: string, deleteSuccess: string)

  const FavoritesMessages := Messages(
    "Рецепт уже находится в избранном!",
    "Рецепта нет в списке избранного!",
    "Рецепт успешно удален из избранного!")

  const ShoppingCartMessages := Messages(
    "Рецепт уже в корзине для покупок!",
    "Рецепта нет в списке покупок!",
    "Рецепт успешно удален из списка покупок!")

  /** The same table is also declared at the top of the utilities module. */
  const SubscribeMessages := Messages(
    "Нельзя подписаться повторно!",
    "На данного пользователя подписка не оформлена!",
    "Подписка успешно отменена!")
}
