/** The records the application stores and passes between its views. */
module Types {
  import opened Wrappers

  /** The four portals; a closed enumeration. */
  datatype Role = Admin | Doctor | Patient | Pharmacist

  /** The prescription lifecycle; a closed enumeration. */
  datatype Status = Pending | Dispensed | Canceled

  /** An account. `specialty` is meaningful for doctors only; `phone` is optional. */
  datatype User = User(
    id: string,
    name: string,
    role: Role,
    email: string,
    specialty: Option<string>,
    phone: Option<string>)

  /** One line of a prescription; `frequency` is a morning-afternoon-evening code such as "1-0-1". */
  datatype Medication = Medication(
    name: string,
    dosage: string,
    frequency: string,
    duration: string,
    instructions: string,
    reminderSent: Option<bool>)

  /** An issued prescription; `qrCode` is the token a pharmacist scans. */
  datatype Prescription = Prescription(
    id: string,
    patientEmail: string,
    doctorId: string,
    doctorName: string,
    doctorEmail: string,
    date: string,
    diagnosis: string,
    medications: seq<Medication>,
    status: Status,
    notes: Option<string>,
    qrCode: string)

  /** The result of a drug-interaction check. */
  datatype Severity = Low | Moderate | High
  datatype DrugInteraction = DrugInteraction(severity: Severity, description: string, recommendation: string)
}
