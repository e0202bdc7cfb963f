/** The storefront's records (src/types/index.ts). Money is integer cents and
    the distance is an exact real; both are JavaScript numbers in the source. */
module Types {

  type ProductId = string
  type MachineId = string

  datatype Category = Beverages | Snacks | Healthy | AllCategory

  datatype MachineStatus = Online | Offline | LowStock

  datatype OrderStatus = Pending | Confirmed | Preparing | Dispensing | Ready | Completed | Failed

  datatype Product = Product(
    id: ProductId,
    name: string,
    price: nat,
    image: string,
    category: Category,
    stock: nat,
    machineId: MachineId)

  datatype CartItem = CartItem(product: Product, quantity: nat)

  datatype Coordinates = Coordinates(lat: real, lng: real)

  datatype Machine = Machine(
    id: MachineId,
    name: string,
    location: string,
    address: string,
    distance: real,
    status: MachineStatus,
    availableItems: nat,
    temperature: real,
    operatingHours: string,
    image: string,
    coordinates: Coordinates)

  datatype Order = Order(
    id: string,
    items: seq<CartItem>,
    total: nat,
    status: OrderStatus,
    machineId: MachineId,
    machineName: string,
    machineLocation: string,
    createdAt: int,
    qrCode: string)
}
