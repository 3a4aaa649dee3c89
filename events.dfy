/** Kafka publishing, reduced to what the services do with it: append a payload to a named topic. */
module Events {

  /** One published message: the topic passed to `KafkaTemplate.send` and the typed payload. */
  datatype Entry<+P> = Entry(topic: string, payload: P)
}
