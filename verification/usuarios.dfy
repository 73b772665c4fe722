/** The user record and response envelope of the users API, as the settings and profile modals receive them. */
module Usuarios {
  import opened Common

  /** A user; the creation and update dates are kept as the text the API sends. */
  datatype Usuario = Usuario(
    id: int, email: string, nombre: string, apellido: string,
    tipoUsuario: string, activo: bool, fechaCreacion: string, fechaActualizacion: string)

  /** `ApiResponse<T>`: an absent `message` is the empty string. */
  datatype ApiResponse<T> = ApiResponse(success: bool, data: Option<T>, message: string)
}
