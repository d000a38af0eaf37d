/** The order record carried by the main topic, shared by producer and consumer. */
module Orders {

  /** Python's record dict `{"orderId", "product", "price"}`; the price is exact here. */
  datatype Order = Order(orderId: string, product: string, price: real)
}
