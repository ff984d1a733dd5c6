/** The records of the `models` package. Timestamps are kept as the text the database returns. */
module Models {

  datatype User = User(id: string, name: string, email: string, password: string,
                       createdAt: string, updatedAt: string)

  datatype Reservation = Reservation(id: string, userId: string, reservationDate: string,
                                     numPeople: int, specialRequest: string, status: string,
                                     createdAt: string, updatedAt: string)

  datatype Notification = Notification(id: string, userId: string, reservationId: string,
                                       message: string, createdAt: string)
}
