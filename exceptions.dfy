/** The exceptions the service and the store raise, by kind. */
module Exceptions {

  datatype ServiceException =
    /** `ResourceAlreadyExistsException`. */
    | ResourceAlreadyExists(message: string)
    /** `ResourceNotFoundException`. */
    | ResourceNotFound(message: string)
    /** Spring Security's `BadCredentialsException`. */
    | BadCredentials(message: string)
    /** The database refusing a row that breaks a NOT NULL or UNIQUE column
        (Spring's `DataIntegrityViolationException`); its text is the driver's. */
    | DataIntegrityViolation(message: string)
}
