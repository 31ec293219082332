/** Records of the wallet ledger, its typed errors, and the Option/Result wrappers
    used for the source's (value, error) return pairs. */
module Types {

  /** Money is a signed 64-bit integer in the source; here it is unbounded. */
  type Money = int
  type Phone = string
  type PaymentCategory = string
  type PaymentStatus = string

  const StatusOK: PaymentStatus := "OK"
  const StatusFail: PaymentStatus := "FAIL"
  const StatusInProgress: PaymentStatus := "INPROGRESS"

  const CategoryFood: PaymentCategory := "food"
  const CategoryIt: PaymentCategory := "it"
  const CategoryShop: PaymentCategory := "shop"

  datatype Account = Account(id: int, phone: Phone, balance: Money)

  datatype Payment = Payment(id: string, accountID: int, amount: Money, category: PaymentCategory, status: PaymentStatus)

  datatype Favorite = Favorite(id: string, accountID: int, name: string, amount: Money, category: PaymentCategory)

  /** The package-level error values of the wallet service. */
  datatype Error =
    | PhoneRegistered
    | AmountMustBePositive
    | AccountNotFound
    | NotEnoughBalance
    | PaymentNotFound
    | CannotRegisterAccount
    | CannotDepositAccount
    | FavoriteNotFound

  datatype Option<+T> = None | Some(value: T)

  /** A (value, nil) or (nil, err) pair. */
  datatype Result<+T> = Success(value: T) | Failure(error: Error)

  /** A search outcome turned into the (pointer, error) pair of a Find*ByID call. */
  function ToResult<T>(o: Option<T>, e: Error): Result<T>
  {
    match o
    case Some(v) => Success(v)
    case None => Failure(e)
  }
}
