/** The four sockets of the program (GlobalData.h). */
module Sockets {
  datatype SocketType = Client | Publisher | Server | Subscriber
}
