/** The user record as the order and auth routes read it. The user schema
    itself is not part of this model; only the fields those routes touch
    appear here. */
module Users {

  datatype Role = Customer | DeliveryBoy | SuperAdmin

  datatype User = User(
    email: string,
    role: Role,
    isActive: bool,
    name: string,
    mobileNumber: string)
}
