/** The records of the relational schema: cars, users, client profiles, tags,
    groups, rental requests, rentals and payments, with their status choices.
    Each status is an enumeration; `Name()` gives the string stored in the column. */
module Schema {
  import opened Common

  /** Carro.status */
  datatype CarStatus = Available | Rented | InMaintenance {
    function Name(): string {
      match this
      case Available => "disponivel"
      case Rented => "alugado"
      case InMaintenance => "manutencao"
    }
  }

  /** SolicitacaoAluguel.status */
  datatype RequestStatus = Pending | Approved | Rejected | CancelledByClient {
    function Name(): string {
      match this
      case Pending => "pendente"
      case Approved => "aprovado"
      case Rejected => "rejeitado"
      case CancelledByClient => "cancelado"
    }
  }

  /** Aluguel.status */
  datatype RentalStatus = Active | Finished | Cancelled {
    function Name(): string {
      match this
      case Active => "ativo"
      case Finished => "finalizado"
      case Cancelled => "cancelado"
    }
  }

  /** Pagamento.status; `Unpaid` is stored as "pendente", `Paid` as "aprovado". */
  datatype PaymentStatus = Unpaid | Processing | Paid | Refused | Voided {
    function Name(): string {
      match this
      case Unpaid => "pendente"
      case Processing => "processando"
      case Paid => "aprovado"
      case Refused => "recusado"
      case Voided => "cancelado"
    }
  }

  /** Pagamento.metodo_pagamento */
  datatype PaymentMethod = Pix | Card | Boleto | Cash {
    function Name(): string {
      match this
      case Pix => "pix"
      case Card => "cartao"
      case Boleto => "boleto"
      case Cash => "dinheiro"
    }
  }

  /** The value `make_password` stores for a raw password. Hashing itself is not
      modelled: all the model needs is that it is determined by the raw value. */
  datatype PasswordHash = HashOf(raw: string)

  /** Carro. The daily price is in cents. */
  datatype Car = Car(model: string, plate: string, year: int, status: CarStatus, dailyPrice: int)

  /** Usuario. */
  datatype User = User(
    username: string, email: string, password: PasswordHash,
    isActive: bool, isStaff: bool, isSuperuser: bool, photo: Option<string>)

  /** PerfilCliente: one per user. */
  datatype Profile = Profile(cnh: string, phone: string, address: string, user: Id)

  /** Tag: its name is unique. */
  datatype Tag = Tag(name: string, color: string, icon: string, description: Option<string>)

  /** Grupo: the tag is optional, and set to null when the tag is deleted. */
  datatype Group = Group(name: string, description: Option<string>, tag: Option<Id>, whatsapp: Option<string>)

  /** SolicitacaoAluguel. Times are in seconds, the estimate in cents. */
  datatype RentalRequest = RentalRequest(
    profile: Id, car: Id, start: int, end: int, estimate: int,
    status: RequestStatus, notes: Option<string>, createdRental: Option<Id>)

  /** Aluguel. `staff` is the user who registered it. */
  datatype Rental = Rental(
    profile: Id, car: Id, staff: Id, start: int, end: int, value: int, status: RentalStatus)

  /** Pagamento: one per rental. */
  datatype Payment = Payment(
    rental: Id, payMethod: PaymentMethod, amount: int, status: PaymentStatus,
    due: int, paidAt: Option<int>,
    pixKey: Option<string>, pixQrCode: Option<string>,
    barcode: Option<string>, digitLine: Option<string>)
}
