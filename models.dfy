/**
 * The backend documents the controllers read and write, and the HTTP error
 * replies they send.
 */
module Models {

  /** MongoDB ObjectIds as their hex text; the empty string is a missing (falsy) id. */
  type UserId = string
  type PartnerId = string
  type FoodId = string

  /**
   * A food item as the controllers use it. `price` is the stored integer.
   * The food schema itself declares only name, video, discription, foodpartner
   * and likeCount; the other fields are the ones the controllers read and write.
   */
  datatype Food = Food(
    name: string,
    description: string,
    category: string,
    tags: seq<string>,
    price: int,
    availableQuantity: int,
    likeCount: int,
    saveCount: int,
    video: string,
    partner: PartnerId)

  /** The non-2xx replies, each with its message. */
  datatype Error =
    | BadRequest(message: string)
    | Unauthorized(message: string)
    | Forbidden(message: string)
    | NotFound(message: string)
    | InternalError
  {
    /** The HTTP status code sent with the error. */
    function Status(): int {
      match this
      case BadRequest(_) => 400
      case Unauthorized(_) => 401
      case Forbidden(_) => 403
      case NotFound(_) => 404
      case InternalError => 500
    }
  }

  /** A controller's reply: the success payload or an error. */
  datatype Result<T> = Ok(value: T) | Err(error: Error)
}
