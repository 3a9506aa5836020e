/** The catalog records: restaurants and the menu items they sell. */
module Catalog {

  /** A restaurant; `rating` is a number such as 4.5, `deliveryTime` a display string such as "25-35 min". */
  datatype Restaurant = Restaurant(
    id: string,
    name: string,
    cuisine: string,
    rating: real,
    deliveryTime: string,
    image: string,
    description: string)

  /** A menu item; `price` is in dollars. */
  datatype MenuItem = MenuItem(
    id: string,
    restaurantId: string,
    name: string,
    description: string,
    price: real,
    image: string,
    category: string)
}
